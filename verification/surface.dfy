/**
 * The EGL surface of a renderer: choosing the first suitable config,
 * creating display, surface and context, and the guarded teardown chain.
 */
module Surface {
  import opened Wrappers

  /** An EGL object; 0 is EGL_NO_DISPLAY / EGL_NO_SURFACE / EGL_NO_CONTEXT. */
  type EglHandle = nat

  /**
   * The answers of `eglGetConfigAttrib` for one config, in query order:
   * red, green, blue, depth; None where the query fails.
   */
  datatype ConfigAttribs = ConfigAttribs(red: Option<int>, green: Option<int>, blue: Option<int>, depth: Option<int>)

  /** The search predicate: all four queries succeed and give 8/8/8 bits of colour and 24 of depth. */
  predicate Suitable(c: ConfigAttribs) {
    && c.red == Some(8)
    && c.green == Some(8)
    && c.blue == Some(8)
    && c.depth == Some(24)
  }

  /** A config whose attribute query fails is never chosen, whatever the other answers. */
  lemma FailedQueryRejects(c: ConfigAttribs)
    requires c.red.None? || c.green.None? || c.blue.None? || c.depth.None?
    ensures !Suitable(c)
  {
  }

  /**
   * The `find_if` over the configs in enumeration order. The source
   * dereferences the result unchecked, so a suitable config must exist.
   */
  method ChooseConfig(configs: seq<ConfigAttribs>) returns (i: nat)
    requires exists j :: 0 <= j < |configs| && Suitable(configs[j])
    ensures i < |configs| && Suitable(configs[i])
    ensures forall j :: 0 <= j < i ==> !Suitable(configs[j])
  {
    i := 0;
    while !Suitable(configs[i])
      invariant i < |configs|
      invariant forall j :: 0 <= j < i ==> !Suitable(configs[j])
      invariant exists j :: i <= j < |configs| && Suitable(configs[j])
      decreases |configs| - i
    {
      i := i + 1;
    }
  }

  /** The display, surface and context a renderer holds. */
  datatype EglSession = EglSession(display: EglHandle, surface: EglHandle, context: EglHandle)

  /** A renderer's EGL fields before `__initRenderer` and after teardown. */
  const NoSession := EglSession(0, 0, 0)

  /** EGL calls, in the order a renderer issues them. */
  datatype EglCall =
    | MakeCurrent(display: EglHandle, draw: EglHandle, read: EglHandle, context: EglHandle)
    | DestroyContext(display: EglHandle, context: EglHandle)
    | DestroySurface(display: EglHandle, surface: EglHandle)
    | Terminate(display: EglHandle)

  /** Driver answers for the objects `__initRenderer` creates, and whether making them current succeeds. */
  datatype EglOracle = EglOracle(display: EglHandle, surface: EglHandle, context: EglHandle, madeCurrent: bool)

  /**
   * `__initRenderer`: the session it stores, the config index it used, and
   * whether its assert on eglMakeCurrent stopped the process.
   */
  datatype SurfaceInit = SurfaceInit(session: EglSession, config: nat, calls: seq<EglCall>, aborted: bool)

  /**
   * `__initRenderer`: pick the first suitable config, create the window
   * surface and a GLES 3 context on it and make them current. Creation
   * results are stored unchecked. `debugAsserts` says whether `assert` is
   * compiled in: a debug build stops on a failed eglMakeCurrent before the
   * fields are assigned, a release build stores the session regardless.
   */
  method InitSurface(configs: seq<ConfigAttribs>, o: EglOracle, debugAsserts: bool) returns (r: SurfaceInit)
    requires exists j :: 0 <= j < |configs| && Suitable(configs[j])
    ensures r.config < |configs| && Suitable(configs[r.config])
    ensures forall j :: 0 <= j < r.config ==> !Suitable(configs[j])
    ensures r.calls == [MakeCurrent(o.display, o.surface, o.surface, o.context)]
    ensures r.aborted <==> debugAsserts && !o.madeCurrent
    ensures r.aborted ==> r.session == NoSession
    ensures !r.aborted ==> r.session == EglSession(o.display, o.surface, o.context)
  {
    var i := ChooseConfig(configs);
    var call := MakeCurrent(o.display, o.surface, o.surface, o.context);
    if debugAsserts && !o.madeCurrent {
      return SurfaceInit(NoSession, i, [call], true);
    }
    r := SurfaceInit(EglSession(o.display, o.surface, o.context), i, [call], false);
  }

  /** Position of the first occurrence of `c` in `calls`, or |calls|. */
  function IndexOf(calls: seq<EglCall>, c: EglCall): (i: nat)
    ensures i <= |calls|
    ensures i < |calls| ==> calls[i] == c
    ensures forall j :: 0 <= j < i ==> calls[j] != c
    decreases |calls|
  {
    if |calls| == 0 || calls[0] == c then 0 else 1 + IndexOf(calls[1..], c)
  }

  /** The session after a teardown and the EGL calls it issued. */
  datatype Released = Released(session: EglSession, calls: seq<EglCall>)

  /**
   * The destructors' EGL chain. With a live display: unbind, destroy the
   * context if any, then the surface if any, terminate the display, and
   * reset each field to its "none" value. Without a display nothing happens
   * at all, and in particular a stray surface or context is left as it is.
   */
  function Teardown(s: EglSession): (r: Released)
    ensures s.display == 0 ==> r == Released(s, [])
    ensures s.display != 0 ==> r.session == NoSession
    ensures s.display != 0 ==>
              && |r.calls| >= 2
              && r.calls[0] == MakeCurrent(s.display, 0, 0, 0)
              && r.calls[|r.calls| - 1] == Terminate(s.display)
              && (DestroyContext(s.display, s.context) in r.calls <==> s.context != 0)
              && (DestroySurface(s.display, s.surface) in r.calls <==> s.surface != 0)
    ensures s.display != 0 ==>
              |r.calls| == 2 + (if s.context != 0 then 1 else 0) + (if s.surface != 0 then 1 else 0)
    ensures s.display != 0 && s.context != 0 && s.surface != 0 ==>
              IndexOf(r.calls, DestroyContext(s.display, s.context)) <
              IndexOf(r.calls, DestroySurface(s.display, s.surface))
  {
    if s.display == 0 then Released(s, [])
    else
      var unbind := [MakeCurrent(s.display, 0, 0, 0)];
      var context := if s.context != 0 then [DestroyContext(s.display, s.context)] else [];
      var surface := if s.surface != 0 then [DestroySurface(s.display, s.surface)] else [];
      var calls := unbind + context + surface + [Terminate(s.display)];
      assert s.context != 0 && s.surface != 0 ==>
               calls[1] == DestroyContext(s.display, s.context) &&
               calls[2] == DestroySurface(s.display, s.surface) &&
               IndexOf(calls, DestroyContext(s.display, s.context)) <= 1 &&
               IndexOf(calls, DestroySurface(s.display, s.surface)) == 2;
      Released(NoSession, calls)
  }

  /** A second teardown issues no EGL call and changes nothing. */
  lemma TeardownIdempotent(s: EglSession)
    ensures Teardown(Teardown(s).session) == Released(Teardown(s).session, [])
  {
  }

  /** Every EGL object a session holds is released exactly once by a teardown of a live display. */
  lemma TeardownReleasesEachOnce(s: EglSession)
    requires s.display != 0
    ensures multiset(Teardown(s).calls)[Terminate(s.display)] == 1
    ensures s.context != 0 ==> multiset(Teardown(s).calls)[DestroyContext(s.display, s.context)] == 1
    ensures s.surface != 0 ==> multiset(Teardown(s).calls)[DestroySurface(s.display, s.surface)] == 1
  {
  }
}
