/**
 * The shader build pipeline as a machine over the sets of live GL shader
 * and program objects. The GL driver is an oracle: for every create call it
 * supplies the new object's name (0 when creation fails), and for every
 * compile or link it says whether it succeeded.
 */
module ShaderBuild {

  /** A GL object name; 0 means "no object". */
  type Handle = nat

  /** The GL objects that are currently allocated. */
  datatype GlObjects = GlObjects(shaders: set<Handle>, programs: set<Handle>) {
    predicate Valid() { 0 !in shaders && 0 !in programs }

    /** Every allocated object. */
    function Live(): set<Handle> { shaders + programs }
  }

  /** Driver answers for `glCreateShader` + `glCompileShader`. */
  datatype ShaderOracle = ShaderOracle(created: Handle, compiles: bool)

  /** Driver answers for `glCreateProgram` + `glLinkProgram`. */
  datatype ProgramOracle = ProgramOracle(created: Handle, links: bool)

  /** A create call returns 0 or a name not already in use. */
  predicate FreshName(gl: GlObjects, h: Handle) {
    h == 0 || h !in gl.Live()
  }

  /** The objects after an operation, and the handle the operation returned. */
  datatype Built = Built(gl: GlObjects, handle: Handle)

  /**
   * `__compileShader` (both renderers): a shader object survives only if it
   * was created and compiled; a failed compile deletes it and returns 0.
   */
  function CompileShader(gl: GlObjects, o: ShaderOracle): (r: Built)
    requires gl.Valid() && FreshName(gl, o.created)
    ensures r.gl.Valid()
    ensures r.handle != 0 <==> o.created != 0 && o.compiles
    ensures r.handle == 0 ==> r.gl == gl
    ensures r.handle != 0 ==> r.handle == o.created && r.handle !in gl.Live() &&
                              r.gl == gl.(shaders := gl.shaders + {r.handle})
  {
    if o.created == 0 then Built(gl, 0)
    else
      var grown := gl.(shaders := gl.shaders + {o.created});
      if o.compiles then Built(grown, o.created)
      else Built(grown.(shaders := grown.shaders - {o.created}), 0)
  }

  /**
   * `compileShader` of the raw demo: the compile status is only logged, so
   * the created name is returned (and stays allocated) even when compilation fails.
   */
  function CompileShaderUnchecked(gl: GlObjects, o: ShaderOracle): (r: Built)
    requires gl.Valid() && FreshName(gl, o.created)
    ensures r.gl.Valid()
    ensures r.handle == o.created
    ensures r.handle != 0 ==> r.gl.shaders == gl.shaders + {r.handle} && r.gl.programs == gl.programs
    ensures r.handle == 0 ==> r.gl == gl
  {
    if o.created == 0 then Built(gl, 0)
    else Built(gl.(shaders := gl.shaders + {o.created}), o.created)
  }

  /**
   * `__linkProgram` of CRenderer: the program survives only if created and
   * linked; on a failed link it is deleted and 0 returned. The shaders are
   * never released here.
   */
  function LinkProgram(gl: GlObjects, vert: Handle, frag: Handle, o: ProgramOracle): (r: Built)
    requires gl.Valid() && FreshName(gl, o.created)
    ensures r.gl.Valid()
    ensures r.handle != 0 <==> o.created != 0 && o.links
    ensures r.gl.shaders == gl.shaders
    ensures r.handle == 0 ==> r.gl.programs == gl.programs
    ensures r.handle != 0 ==> r.handle == o.created && r.handle !in gl.Live() &&
                              r.gl.programs == gl.programs + {r.handle}
  {
    if o.created == 0 then Built(gl, 0)
    else
      var grown := gl.(programs := gl.programs + {o.created});
      if o.links then Built(grown, o.created)
      else Built(grown.(programs := grown.programs - {o.created}), 0)
  }

  /** `__linkProgram` of the sequence-frame renderer: the same, but it asserts both shaders exist. */
  function LinkProgramChecked(gl: GlObjects, vert: Handle, frag: Handle, o: ProgramOracle): (r: Built)
    requires gl.Valid() && FreshName(gl, o.created)
    requires vert != 0 && frag != 0
    ensures r.gl.Valid()
    ensures r.handle != 0 <==> o.created != 0 && o.links
    ensures r.gl.shaders == gl.shaders
    ensures r.handle == 0 ==> r.gl.programs == gl.programs
    ensures r.handle != 0 ==> r.handle == o.created && r.handle !in gl.Live() &&
                              r.gl.programs == gl.programs + {r.handle}
  {
    LinkProgram(gl, vert, frag, o)
  }

  /**
   * Once its assert passes, the sequence-frame renderer's link is the same
   * code as CRenderer's, and `LinkProgramChecked` is defined as
   * `LinkProgram`; this lemma records that agreement and proves nothing
   * beyond it. So `CreateProgram` describes the build of both renderers.
   */
  lemma CheckedLinkAgrees(gl: GlObjects, vert: Handle, frag: Handle, o: ProgramOracle)
    requires gl.Valid() && FreshName(gl, o.created)
    requires vert != 0 && frag != 0
    ensures LinkProgramChecked(gl, vert, frag, o) == LinkProgram(gl, vert, frag, o)
  {
  }

  /**
   * `linkProgram` of the raw demo: a failed link deletes the program only;
   * the two shaders are deleted only when `glCreateProgram` itself fails.
   */
  function LinkProgramRaw(gl: GlObjects, vert: Handle, frag: Handle, o: ProgramOracle): (r: Built)
    requires gl.Valid() && FreshName(gl, o.created)
    ensures r.gl.Valid()
    ensures r.handle != 0 <==> o.created != 0 && o.links
    ensures o.created == 0 ==> r.gl == gl.(shaders := gl.shaders - {vert, frag})
    ensures o.created != 0 ==> r.gl.shaders == gl.shaders
    ensures r.handle == 0 ==> r.gl.programs == gl.programs
    ensures r.handle != 0 ==> r.handle == o.created && r.handle !in gl.Live() &&
                              r.gl.programs == gl.programs + {r.handle}
  {
    if o.created == 0 then Built(gl.(shaders := gl.shaders - {vert, frag}), 0)
    else LinkProgram(gl, vert, frag, o)
  }

  /** Driver answers for one whole program build. */
  datatype BuildOracle = BuildOracle(vert: ShaderOracle, frag: ShaderOracle, program: ProgramOracle)

  /** Every name the driver hands out is new and distinct from the others. */
  predicate FreshOracle(gl: GlObjects, o: BuildOracle) {
    && FreshName(gl, o.vert.created)
    && FreshName(gl, o.frag.created)
    && FreshName(gl, o.program.created)
    && (o.vert.created == 0 || o.vert.created != o.frag.created)
    && (o.program.created == 0 || o.program.created !in {o.vert.created, o.frag.created})
  }

  predicate VertOk(o: BuildOracle) { o.vert.created != 0 && o.vert.compiles }
  predicate FragOk(o: BuildOracle) { o.frag.created != 0 && o.frag.compiles }
  predicate LinkOk(o: BuildOracle) { o.program.created != 0 && o.program.links }

  /**
   * `__createProgram` (both renderers): compile the vertex shader, stop if
   * that failed; compile the fragment shader, stop if that failed; otherwise
   * link, with the sequence-frame renderer's checked link (CRenderer's
   * unchecked one agrees with it here, by `CheckedLinkAgrees`). `current`
   * is `m_ProgramHandle` before the call; it is replaced only when both
   * compiles succeed, by the name glCreateProgram returned or by 0.
   */
  function CreateProgram(gl: GlObjects, o: BuildOracle, current: Handle): (r: Built)
    requires gl.Valid() && FreshOracle(gl, o)
    ensures r.gl.Valid()
    ensures !VertOk(o) ==> r == Built(gl, current)
    ensures VertOk(o) && !FragOk(o) ==>
              r.handle == current && r.gl == gl.(shaders := gl.shaders + {o.vert.created})
    ensures VertOk(o) && FragOk(o) ==>
              && r.handle == (if LinkOk(o) then o.program.created else 0)
              && r.gl.shaders == gl.shaders + {o.vert.created, o.frag.created}
              && r.gl.programs == gl.programs + (if LinkOk(o) then {o.program.created} else {})
    ensures r.handle != current ==> VertOk(o) && FragOk(o)
  {
    var v := CompileShader(gl, o.vert);
    if v.handle == 0 then Built(gl, current)
    else
      var f := CompileShader(v.gl, o.frag);
      if f.handle == 0 then Built(v.gl, current)
      else
        LinkProgramChecked(f.gl, v.handle, f.handle, o.program)
  }

  /** Objects allocated by an operation that the caller holds no handle to. */
  function Orphans(before: GlObjects, after: GlObjects, kept: set<Handle>): set<Handle> {
    after.Live() - before.Live() - kept
  }

  /**
   * What `__createProgram` leaves behind besides the program it stores: a
   * failed vertex compile leaves nothing; a failed fragment compile orphans
   * the vertex shader; once both compile, both shaders stay allocated
   * (nothing ever deletes them), whether or not the link succeeds.
   */
  lemma CreateProgramOrphans(gl: GlObjects, o: BuildOracle)
    requires gl.Valid() && FreshOracle(gl, o)
    ensures var r := CreateProgram(gl, o, 0);
            Orphans(gl, r.gl, {r.handle}) ==
              if !VertOk(o) then {}
              else if !FragOk(o) then {o.vert.created}
              else {o.vert.created, o.frag.created}
  {
    var r := CreateProgram(gl, o, 0);
    if VertOk(o) && FragOk(o) && LinkOk(o) {
      assert r.gl.Live() - gl.Live() == {o.vert.created, o.frag.created, o.program.created};
    }
  }

  /** A failed vertex compile skips the fragment stage: its oracle answers do not matter. */
  lemma VertexFailureSkipsFragment(gl: GlObjects, o: BuildOracle, frag: ShaderOracle, current: Handle)
    requires gl.Valid() && FreshOracle(gl, o) && FreshOracle(gl, o.(frag := frag))
    requires !VertOk(o)
    ensures CreateProgram(gl, o, current) == CreateProgram(gl, o.(frag := frag), current)
  {
  }

  /** The raw demo's build: two unchecked compiles followed by its link. */
  function BuildRaw(gl: GlObjects, o: BuildOracle): (r: Built)
    requires gl.Valid() && FreshOracle(gl, o)
    ensures r.gl.Valid()
    ensures r.handle != 0 <==> LinkOk(o)
  {
    var v := CompileShaderUnchecked(gl, o.vert);
    var f := CompileShaderUnchecked(v.gl, o.frag);
    LinkProgramRaw(f.gl, v.handle, f.handle, o.program)
  }

  /**
   * When both compiles succeed and glCreateProgram returns a name, the raw
   * demo's build and the renderers' build allocate the same objects and
   * return the same program, whether or not the link succeeds.
   */
  lemma RawAgreesOnSuccess(gl: GlObjects, o: BuildOracle)
    requires gl.Valid() && FreshOracle(gl, o)
    requires VertOk(o) && FragOk(o) && o.program.created != 0
    ensures BuildRaw(gl, o) == CreateProgram(gl, o, 0)
  {
  }

  /**
   * When a compile fails the raw demo keeps the failed shader allocated and
   * still hands it to the link, where the renderers' build allocates nothing
   * for it.
   */
  lemma RawKeepsFailedShader(gl: GlObjects, o: BuildOracle)
    requires gl.Valid() && FreshOracle(gl, o)
    requires o.vert.created != 0 && !o.vert.compiles && o.program.created != 0
    ensures o.vert.created in BuildRaw(gl, o).gl.shaders
    ensures o.vert.created !in CreateProgram(gl, o, 0).gl.Live()
  {
  }

  /**
   * In the raw demo a failed glCreateProgram releases both shaders it was
   * given, so nothing is left behind; the renderers' build keeps them.
   */
  lemma RawCreateFailureReleasesShaders(gl: GlObjects, o: BuildOracle)
    requires gl.Valid() && FreshOracle(gl, o)
    requires o.program.created == 0
    ensures BuildRaw(gl, o) == Built(gl, 0)
    ensures VertOk(o) && FragOk(o) ==> CreateProgram(gl, o, 0).gl.shaders == gl.shaders + {o.vert.created, o.frag.created}
  {
  }
}
