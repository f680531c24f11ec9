/**
 * One iteration of the sprite-sheet render loop: advance the clock, then
 * draw background, far snow, cartoon and near snow, each as six indices,
 * changing the blend function between draws but never resetting it.
 */
module Compositor {
  import opened Wrappers
  import opened SpriteGrid
  import opened AnimationClock

  datatype BlendFactor = Zero | One | SrcAlpha | OneMinusSrcAlpha

  /** The GL blend state: GL_BLEND enabled or not, and the glBlendFunc factors. */
  datatype BlendState = BlendState(enabled: bool, src: BlendFactor, dst: BlendFactor)

  /** The blend state of a fresh GL context: disabled, (ONE, ZERO). */
  const InitialBlend := BlendState(false, One, Zero)

  /** The snow layers' additive blend, (SRC_ALPHA, ONE). */
  const AdditiveBlend := BlendState(true, SrcAlpha, One)

  /** The cartoon's ordinary alpha blend, (SRC_ALPHA, ONE_MINUS_SRC_ALPHA). */
  const AlphaBlend := BlendState(true, SrcAlpha, OneMinusSrcAlpha)

  /** `glEnable(GL_BLEND)` followed by `glBlendFunc(src, dst)`. */
  function EnableBlend(src: BlendFactor, dst: BlendFactor): BlendState {
    BlendState(true, src, dst)
  }

  datatype Layer = Background | FarSnow | Cartoon | NearSnow

  /** The program and texture a layer is drawn with (0 when they failed to build or load). */
  datatype Binding = Binding(program: nat, texture: nat)

  datatype Scene = Scene(background: Binding, farSnow: Binding, cartoon: Binding, nearSnow: Binding)

  /** The `uvOffset` / `uvScale` uniform pair of a snow draw. */
  datatype SnowUniforms = SnowUniforms(offset: Vec2, scale: Vec2)

  /** One `glDrawElements` call with the state it observes. */
  datatype Draw = Draw(layer: Layer, binding: Binding, blend: BlendState,
                       uniforms: Option<SnowUniforms>, indexCount: nat)

  /** The state carried from one loop iteration to the next. */
  datatype LoopState = LoopState(clock: Clock, blend: BlendState)

  predicate ValidState(g: Grid, s: LoopState) {
    g.Valid() && ValidFrame(g, s.clock.frame)
  }

  /** The loop state before the first iteration. */
  function InitialState(start: real): LoopState {
    LoopState(Start(start), InitialBlend)
  }

  /** What one iteration leaves behind and the draws it issued. */
  datatype Iteration = Iteration(next: LoopState, draws: seq<Draw>)

  /** Uniforms both snow layers receive for frame `f`. */
  function UniformsFor(g: Grid, f: int): (u: SnowUniforms)
    requires g.Valid() && ValidFrame(g, f)
    ensures InClosedRect(FrameRect(g, f), Vec2(u.offset.x + u.scale.x, u.offset.y + u.scale.y))
    ensures u.scale == Vec2(1.0 / g.cols as real, 1.0 / g.rows as real)
    ensures u.offset == UvOffset(FrameRect(g, f)) && u.scale == UvScale(FrameRect(g, f))
  {
    var r := FrameRect(g, f);
    SnowUniforms(UvOffset(r), UvScale(r))
  }

  /** One iteration of the render loop at time `now`. */
  function Iterate(g: Grid, scene: Scene, s: LoopState, now: real): (it: Iteration)
    requires ValidState(g, s)
    ensures ValidState(g, it.next)
    ensures |it.draws| == 4
    ensures it.draws[0].layer == Background && it.draws[1].layer == FarSnow
    ensures it.draws[2].layer == Cartoon && it.draws[3].layer == NearSnow
    ensures it.draws[0].binding == scene.background && it.draws[1].binding == scene.farSnow
    ensures it.draws[2].binding == scene.cartoon && it.draws[3].binding == scene.nearSnow
    ensures forall i :: 0 <= i < 4 ==> it.draws[i].indexCount == 6
    ensures it.draws[0].blend == s.blend
    ensures it.draws[1].blend == AdditiveBlend && it.draws[3].blend == AdditiveBlend
    ensures it.draws[2].blend == AlphaBlend
    ensures it.next.blend == AdditiveBlend
    ensures it.draws[0].uniforms.None? && it.draws[2].uniforms.None?
    ensures it.draws[1].uniforms == it.draws[3].uniforms == Some(UniformsFor(g, it.next.clock.frame))
    ensures it.next.clock == Tick(g, FrameTime, s.clock, now)
  {
    var clock := Tick(g, FrameTime, s.clock, now);
    var uv := UniformsFor(g, clock.frame);
    var background := Draw(Background, scene.background, s.blend, None, 6);
    var b1 := EnableBlend(SrcAlpha, One);
    var far := Draw(FarSnow, scene.farSnow, b1, Some(uv), 6);
    var b2 := EnableBlend(SrcAlpha, OneMinusSrcAlpha);
    var cartoon := Draw(Cartoon, scene.cartoon, b2, None, 6);
    var b3 := EnableBlend(SrcAlpha, One);
    var near := Draw(NearSnow, scene.nearSnow, b3, Some(uv), 6);
    Iteration(LoopState(clock, b3), [background, far, cartoon, near])
  }

  /**
   * Both snow draws of an iteration sample only the cell of the frame the
   * clock shows after that iteration's tick, wherever on the quad the
   * fragment lies.
   */
  lemma SnowDrawsSampleCurrentFrame(g: Grid, scene: Scene, s: LoopState, now: real, t: Vec2)
    requires ValidState(g, s)
    requires 0.0 <= t.x <= 1.0 && 0.0 <= t.y <= 1.0
    ensures var it := Iterate(g, scene, s, now);
            var r := FrameRect(g, it.next.clock.frame);
            && it.draws[1].uniforms.Some?
            && InClosedRect(r, ShaderLookup(t, it.draws[1].uniforms.value.offset, it.draws[1].uniforms.value.scale))
            && it.draws[3].uniforms.Some?
            && InClosedRect(r, ShaderLookup(t, it.draws[3].uniforms.value.offset, it.draws[3].uniforms.value.scale))
  {
    var it := Iterate(g, scene, s, now);
    var f := it.next.clock.frame;
    SampleStaysInFrame(g, f, t);
  }

  /** Iterations at the successive times `times`, from state `s`. */
  function Run(g: Grid, scene: Scene, s: LoopState, times: seq<real>): (it: Iteration)
    requires ValidState(g, s)
    ensures ValidState(g, it.next)
    ensures |it.draws| == 4 * |times|
    decreases |times|
  {
    if |times| == 0 then Iteration(s, [])
    else
      var first := Iterate(g, scene, s, times[0]);
      var rest := Run(g, scene, first.next, times[1..]);
      Iteration(rest.next, first.draws + rest.draws)
  }

  /**
   * Blending is never reset: in a run the first background draw sees the
   * state the run started with, and every later background draw inherits
   * the near-snow layer's (SRC_ALPHA, ONE).
   */
  lemma {:induction false} BackgroundInheritsSnowBlend(g: Grid, scene: Scene, s: LoopState, times: seq<real>, i: nat)
    requires ValidState(g, s) && i < |times|
    ensures Run(g, scene, s, times).draws[4 * i].layer == Background
    ensures Run(g, scene, s, times).draws[4 * i].blend == if i == 0 then s.blend else AdditiveBlend
    decreases |times|
  {
    var first := Iterate(g, scene, s, times[0]);
    var rest := Run(g, scene, first.next, times[1..]);
    assert Run(g, scene, s, times).draws == first.draws + rest.draws;
    if i > 0 {
      BackgroundInheritsSnowBlend(g, scene, first.next, times[1..], i - 1);
      assert (first.draws + rest.draws)[4 * i] == rest.draws[4 * (i - 1)];
    }
  }

  /** So from a fresh context, the first frame's background is unblended and the second's is not. */
  lemma FirstTwoFramesDiffer(g: Grid, scene: Scene, start: real, t1: real, t2: real)
    requires g.Valid()
    ensures Run(g, scene, InitialState(start), [t1, t2]).draws[0].blend == InitialBlend
    ensures Run(g, scene, InitialState(start), [t1, t2]).draws[4].blend == AdditiveBlend
    ensures InitialBlend != AdditiveBlend
  {
    BackgroundInheritsSnowBlend(g, scene, InitialState(start), [t1, t2], 0);
    BackgroundInheritsSnowBlend(g, scene, InitialState(start), [t1, t2], 1);
  }

  /**
   * In every iteration of a run the four draws come in the fixed order, the
   * two snow layers get identical UV uniforms, and those uniforms are the
   * ones of the frame the clock shows after that iteration's tick.
   */
  lemma {:induction false} RunDrawOrder(g: Grid, scene: Scene, s: LoopState, times: seq<real>, i: nat)
    requires ValidState(g, s) && i < |times|
    ensures var d := Run(g, scene, s, times).draws;
            && d[4 * i].layer == Background && d[4 * i + 1].layer == FarSnow
            && d[4 * i + 2].layer == Cartoon && d[4 * i + 3].layer == NearSnow
            && d[4 * i + 1].uniforms.Some?
            && d[4 * i + 1].uniforms == d[4 * i + 3].uniforms
            && d[4 * i + 1].blend == d[4 * i + 3].blend == AdditiveBlend
            && d[4 * i + 2].blend == AlphaBlend
    decreases |times|
  {
    var first := Iterate(g, scene, s, times[0]);
    var rest := Run(g, scene, first.next, times[1..]);
    var d := first.draws + rest.draws;
    assert Run(g, scene, s, times).draws == d;
    if i > 0 {
      RunDrawOrder(g, scene, first.next, times[1..], i - 1);
      assert d[4 * i] == rest.draws[4 * (i - 1)];
      assert d[4 * i + 1] == rest.draws[4 * (i - 1) + 1];
      assert d[4 * i + 2] == rest.draws[4 * (i - 1) + 2];
      assert d[4 * i + 3] == rest.draws[4 * (i - 1) + 3];
    }
  }

  /** In every iteration of a run each layer is drawn with its own program and texture. */
  lemma {:induction false} RunBindings(g: Grid, scene: Scene, s: LoopState, times: seq<real>, i: nat)
    requires ValidState(g, s) && i < |times|
    ensures var d := Run(g, scene, s, times).draws;
            && d[4 * i].binding == scene.background && d[4 * i + 1].binding == scene.farSnow
            && d[4 * i + 2].binding == scene.cartoon && d[4 * i + 3].binding == scene.nearSnow
    decreases |times|
  {
    var first := Iterate(g, scene, s, times[0]);
    var rest := Run(g, scene, first.next, times[1..]);
    var d := first.draws + rest.draws;
    assert Run(g, scene, s, times).draws == d;
    if i > 0 {
      RunBindings(g, scene, first.next, times[1..], i - 1);
      assert d[4 * i] == rest.draws[4 * (i - 1)];
      assert d[4 * i + 1] == rest.draws[4 * (i - 1) + 1];
      assert d[4 * i + 2] == rest.draws[4 * (i - 1) + 2];
      assert d[4 * i + 3] == rest.draws[4 * (i - 1) + 3];
    }
  }

  /** The loop state after a run: the clock after ticking at every time in turn. */
  lemma {:induction false} RunClock(g: Grid, scene: Scene, s: LoopState, times: seq<real>)
    requires ValidState(g, s)
    ensures Run(g, scene, s, times).next.clock == ClockAfter(g, s.clock, times)
    ensures |times| > 0 ==> Run(g, scene, s, times).next.blend == AdditiveBlend
    decreases |times|
  {
    if |times| > 0 {
      RunClock(g, scene, Iterate(g, scene, s, times[0]).next, times[1..]);
    }
  }

  /** The animation clock ticked at each of `times` in order. */
  function ClockAfter(g: Grid, c: Clock, times: seq<real>): Clock
    requires g.Valid()
    decreases |times|
  {
    if |times| == 0 then c else ClockAfter(g, Tick(g, FrameTime, c, times[0]), times[1..])
  }
}
