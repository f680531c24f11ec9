/**
 * The animation clock of the sprite-sheet loop: a frame index that moves
 * one cell forward whenever at least one frame period has passed since the
 * last advance, with the advance time reset to the current time.
 */
module AnimationClock {
  import opened SpriteGrid

  /** Seconds per sprite frame: 24 frames per second. */
  const FrameTime: real := 1.0 / 24.0

  /** `CurrentFrame` and `LastTime` of the render loop. */
  datatype Clock = Clock(frame: int, lastTime: real)

  /** The clock before the loop: frame 0, last advance at the start time. */
  function Start(now: real): Clock {
    Clock(0, now)
  }

  /** One cell forward, wrapping after the last cell of the sheet. */
  function Advance(g: Grid, f: int): (f': int)
    requires g.Valid()
    ensures ValidFrame(g, f')
  {
    (f + 1) % g.Frames()
  }

  /**
   * One loop tick at time `now`: advance by a single frame iff at least
   * `period` has passed, and then forget any surplus time.
   */
  function Tick(g: Grid, period: real, c: Clock, now: real): (c': Clock)
    requires g.Valid()
    ensures ValidFrame(g, c'.frame) || c' == c
    ensures now - c.lastTime < period ==> c' == c
    ensures now - c.lastTime >= period ==> c'.lastTime == now && c'.frame == Advance(g, c.frame)
  {
    if now - c.lastTime >= period then Clock(Advance(g, c.frame), now) else c
  }

  /** Tick keeps the frame index a valid cell of the sheet. */
  lemma TickKeepsFrameValid(g: Grid, period: real, c: Clock, now: real)
    requires g.Valid() && ValidFrame(g, c.frame)
    ensures ValidFrame(g, Tick(g, period, c, now).frame)
  {
  }

  /** A late tick is still one step: how late it is does not matter. */
  lemma LateTickIsOneStep(g: Grid, period: real, c: Clock, now1: real, now2: real)
    requires g.Valid()
    requires now1 - c.lastTime >= period && now2 - c.lastTime >= period
    ensures Tick(g, period, c, now1).frame == Tick(g, period, c, now2).frame
  {
  }

  /** `n` advances from frame `f`. */
  function Steps(g: Grid, f: int, n: nat): int
    requires g.Valid()
  {
    if n == 0 then f else Advance(g, Steps(g, f, n - 1))
  }

  /** From frame 0, n advances land on n mod (ROWS*COLS). */
  lemma {:induction false} StepsFromZero(g: Grid, n: nat)
    requires g.Valid()
    ensures Steps(g, 0, n) == n % g.Frames()
    ensures ValidFrame(g, Steps(g, 0, n))
  {
    var F := g.Frames();
    if n > 0 {
      StepsFromZero(g, n - 1);
      var prev := Steps(g, 0, n - 1);
      assert prev == (n - 1) % F;
      assert Steps(g, 0, n) == (prev + 1) % F;
      ModSucc(n - 1, F);
    }
  }

  lemma ModSucc(a: nat, m: int)
    requires m > 0
    ensures (a % m + 1) % m == (a + 1) % m
  {
    var q, r := a / m, a % m;
    assert a == q * m + r;
    if r + 1 == m {
      assert (q + 1) * m == q * m + m;
      DivModUnique(q + 1, 0, m);
      DivModUnique(1, 0, m);
    } else {
      DivModUnique(q, r + 1, m);
      DivModUnique(0, r + 1, m);
    }
  }

  /** Wrap-around: after exactly ROWS*COLS advances the clock is back on frame 0. */
  lemma FullCycleReturnsToZero(g: Grid)
    requires g.Valid()
    ensures Steps(g, 0, g.Frames()) == 0
  {
    StepsFromZero(g, g.Frames());
  }

  /** The clock after ticks at start + p, start + 2p, ..., start + n*p. */
  function PeriodicTicks(g: Grid, period: real, start: real, p: real, n: nat): Clock
    requires g.Valid()
  {
    if n == 0 then Start(start)
    else Tick(g, period, PeriodicTicks(g, period, start, p, n - 1), TickTime(start, p, n))
  }

  /** `k` is ceil(period / p): the fewest ticks of length p that cover a period. */
  predicate TicksPerStep(period: real, p: real, k: int) {
    k >= 1 && (k - 1) as real * p < period <= k as real * p
  }

  lemma ScaleMonotone(a: int, b: int, p: real)
    requires a <= b && p > 0.0
    ensures a as real * p <= b as real * p
  {
    assert b as real * p - a as real * p == (b - a) as real * p;
  }

  /**
   * With ticks every p seconds the frame advances once every k = ceil(period / p)
   * ticks, because surplus time is dropped at each advance: after n ticks the
   * frame is (n / k) mod (ROWS*COLS), not floor(n * p / period).
   */
  lemma {:induction false} PeriodicTickLaw(g: Grid, period: real, start: real, p: real, k: int, n: nat)
    requires g.Valid() && p > 0.0 && TicksPerStep(period, p, k)
    ensures PeriodicTicks(g, period, start, p, n) == Clock((n / k) % g.Frames(), TickTime(start, p, k * (n / k)))
  {
    if n > 0 {
      PeriodicTickLaw(g, period, start, p, k, n - 1);
      PeriodicStep(g, period, start, p, k, n - 1);
    }
  }

  /** The inductive step of PeriodicTickLaw: the (m+1)-th tick. */
  lemma PeriodicStep(g: Grid, period: real, start: real, p: real, k: int, m: nat)
    requires g.Valid() && p > 0.0 && TicksPerStep(period, p, k)
    ensures var c := Clock((m / k) % g.Frames(), TickTime(start, p, k * (m / k)));
            Tick(g, period, c, TickTime(start, p, m + 1)) ==
            Clock(((m + 1) / k) % g.Frames(), TickTime(start, p, k * ((m + 1) / k)))
  {
    var q := m / k;
    var c := Clock(q % g.Frames(), TickTime(start, p, k * q));
    var now := TickTime(start, p, m + 1);
    var gap := NextTickGap(m, k);
    Elapsed(start, p, m + 1, k * q);
    var late := now - c.lastTime;
    assert late == gap as real * p;
    if gap < k {
      ScaleMonotone(gap, k - 1, p);
      assert late <= (k - 1) as real * p < period;
    } else {
      assert late >= period;
      assert k * ((m + 1) / k) == m + 1;
      ModSucc(q, g.Frames());
    }
  }

  /** The time of the `i`-th tick. */
  function TickTime(start: real, p: real, i: int): real {
    start + i as real * p
  }

  /** Ticks since the last advance, counted at the (m+1)-th tick. */
  lemma NextTickGap(m: nat, k: int) returns (gap: int)
    requires k >= 1
    ensures gap == m + 1 - k * (m / k)
    ensures 1 <= gap <= k
    ensures gap < k ==> (m + 1) / k == m / k
    ensures gap == k ==> (m + 1) / k == m / k + 1
  {
    var q := m / k;
    gap := m + 1 - k * q;
    assert m == k * q + m % k;
    if m % k + 1 < k {
      DivModUnique(q, m % k + 1, k);
    } else {
      assert m + 1 == (q + 1) * k;
      DivModUnique(q + 1, 0, k);
    }
  }

  lemma Elapsed(start: real, p: real, a: int, b: int)
    ensures TickTime(start, p, a) - TickTime(start, p, b) == (a - b) as real * p
  {
  }

  /**
   * At a 60 Hz tick rate, 120 ticks (two seconds) advance a 24 fps layer
   * 40 times, not 48: each advance costs three ticks.
   */
  lemma SixtyHertzForTwoSeconds(start: real)
    ensures PeriodicTicks(SnowSheet, FrameTime, start, 1.0 / 60.0, 120).frame == 40
  {
    PeriodicTickLaw(SnowSheet, FrameTime, start, 1.0 / 60.0, 3, 120);
  }

  /** Two ticks 1/48 s apart after an advance: the second does not move the frame. */
  lemma HalfPeriodTickIsIdle(g: Grid, f: int, t: real)
    requires g.Valid()
    ensures Tick(g, FrameTime, Clock(f, t), t + 1.0 / 48.0) == Clock(f, t)
  {
  }

  /** A tick 1/12 s (two periods) late moves exactly one frame. */
  lemma DoublePeriodTickIsOneStep(g: Grid, f: int, t: real)
    requires g.Valid()
    ensures Tick(g, FrameTime, Clock(f, t), t + 1.0 / 12.0) == Clock(Advance(g, f), t + 1.0 / 12.0)
  {
  }
}
