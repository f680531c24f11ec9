/**
 * The application glue: the window-command handler that owns the renderer
 * pointer, the motion-event filter, and the main loop that drains the
 * looper's events and then renders one tick.
 */
module AppLoop {
  import opened Wrappers

  // ---------------------------------------------------------------- commands

  datatype Command = InitWindow | TermWindow | OtherCommand(code: int)

  /**
   * The app's renderer bookkeeping: `userData` is the pointer the app holds
   * (0 for null), `live` the renderers allocated and not yet deleted, and
   * `nextId` the address the next `new` returns.
   */
  datatype AppState = AppState(userData: nat, live: set<nat>, nextId: nat)

  predicate Valid(a: AppState) {
    && a.nextId > 0
    && (forall r :: r in a.live ==> 0 < r < a.nextId)
    && (a.userData == 0 || a.userData in a.live)
  }

  /** Before the first command: no renderer. */
  const Launched := AppState(0, {}, 1)

  /** Renderers still allocated that the app no longer points to. */
  function Orphans(a: AppState): set<nat> {
    a.live - {a.userData}
  }

  /**
   * `handleCmd`. INIT_WINDOW stores a new renderer, overwriting the old
   * pointer without deleting it; TERM_WINDOW with a renderer nulls the
   * pointer and deletes that renderer; everything else changes nothing.
   */
  function HandleCmd(a: AppState, cmd: Command): (a': AppState)
    requires Valid(a)
    ensures Valid(a')
    ensures cmd.InitWindow? ==>
              a'.userData != 0 && a'.userData !in a.live && a'.live == a.live + {a'.userData} &&
              Orphans(a') == a.live
    ensures cmd.TermWindow? && a.userData != 0 ==>
              a'.userData == 0 && a'.live == a.live - {a.userData} && Orphans(a') == Orphans(a)
    ensures cmd.TermWindow? && a.userData == 0 ==> a' == a
    ensures cmd.OtherCommand? ==> a' == a
  {
    match cmd
    case InitWindow =>
      AppState(a.nextId, a.live + {a.nextId}, a.nextId + 1)
    case TermWindow =>
      if a.userData != 0 then AppState(0, a.live - {a.userData}, a.nextId) else a
    case OtherCommand(_) => a
  }

  /** Two INIT_WINDOW in a row followed by TERM_WINDOW leave the first renderer allocated and unreachable. */
  lemma DoubleInitLeaks()
    ensures var a := HandleCmd(HandleCmd(HandleCmd(Launched, InitWindow), InitWindow), TermWindow);
            a.userData == 0 && a.live == {1} && Orphans(a) == {1}
  {
  }

  // ------------------------------------------------------------ motion filter

  const SourceClassMask: bv32 := 0xff
  const SourceClassPointer: bv32 := 0x02
  const SourceClassJoystick: bv32 := 0x10

  /** The source classes the filter lets through. */
  const AcceptedClasses: set<bv32> := {SourceClassPointer, SourceClassJoystick}

  /** `motion_event_filter_func`: accept pointer-class and joystick-class sources only. */
  function MotionFilter(source: bv32): (accepted: bool)
    ensures accepted <==> source & SourceClassMask in AcceptedClasses
    ensures accepted ==> source & SourceClassMask != 0
  {
    var sourceClass := source & SourceClassMask;
    sourceClass == SourceClassPointer || sourceClass == SourceClassJoystick
  }

  /** The filter sees only the class byte: sources that agree on it are treated alike. */
  lemma MotionFilterByClassByte(s: bv32, t: bv32)
    requires s & SourceClassMask == t & SourceClassMask
    ensures MotionFilter(s) == MotionFilter(t)
    ensures MotionFilter(s) == MotionFilter(s & SourceClassMask)
  {
  }

  /** Touchscreen, mouse and joystick events pass; keyboard, d-pad and gamepad events do not. */
  lemma MotionFilterOnDevices()
    ensures MotionFilter(0x1002) && MotionFilter(0x2002) && MotionFilter(0x0100_0010)
    ensures !MotionFilter(0x101) && !MotionFilter(0x201) && !MotionFilter(0x401)
  {
  }

  // ------------------------------------------------------------- event polling

  /** The looper's negative status codes. */
  const PollWake := -1
  const PollCallback := -2
  const PollTimeout := -3
  const PollError := -4

  /** The event bitmask value the poll switch tests instead of PollError. */
  const EventError := 4

  /** What a poll source does when processed: deliver a window command, or an input batch. */
  datatype Source = CommandSource(cmd: Command) | InputSource

  /** One `ALooper_pollOnce` result with the source pointer it leaves in `pSource`. */
  datatype PollEvent = PollEvent(result: int, source: Option<Source>)

  datatype PollAction = StopPolling | KeepPolling | Dispatch

  /**
   * The poll-result switch. `errorLabel` is the constant its error case
   * tests: EventError as written, PollError as intended.
   */
  function Classify(result: int, errorLabel: int): (act: PollAction)
    ensures act == StopPolling <==> result == PollTimeout || result == PollWake
    ensures act == KeepPolling <==>
              result != PollTimeout && result != PollWake && (result == errorLabel || result == PollCallback)
  {
    if result == PollTimeout || result == PollWake then StopPolling
    else if result == errorLabel || result == PollCallback then KeepPolling
    else Dispatch
  }

  /** The switch as written, testing the event bitmask value. */
  function ClassifyAsWritten(result: int): PollAction {
    Classify(result, EventError)
  }

  /** The switch as intended, testing the poll error code. */
  function ClassifyCorrected(result: int): (act: PollAction)
    ensures act == Dispatch ==> result !in {PollWake, PollCallback, PollTimeout, PollError}
  {
    Classify(result, PollError)
  }

  /**
   * As written, a poll error (-4) falls through to the default case, where
   * its source is null, so nothing is processed and only the log line is
   * lost; a real identifier 4 is swallowed as an error. The corrected switch
   * does the opposite in both cases.
   */
  lemma PollErrorMisclassified()
    ensures ClassifyAsWritten(PollError) == Dispatch
    ensures ClassifyAsWritten(4) == KeepPolling
    ensures ClassifyCorrected(PollError) == KeepPolling
    ensures ClassifyCorrected(4) == Dispatch
  {
  }

  /** The result of draining the looper: sources processed, events consumed, and whether polling stopped. */
  datatype Drained = Drained(dispatched: seq<Source>, consumed: nat, done: bool)

  predicate Stops(e: PollEvent) {
    e.result == PollTimeout || e.result == PollWake
  }

  /**
   * The sources the switch's default case processes, over all of `events`:
   * those of the events it sends to dispatch that carry a non-null source,
   * in order.
   */
  function Dispatches(events: seq<PollEvent>, errorLabel: int): seq<Source>
    decreases |events|
  {
    if |events| == 0 then []
    else
      var e := events[0];
      var mine := if Classify(e.result, errorLabel) == Dispatch && e.source.Some? then [e.source.value] else [];
      mine + Dispatches(events[1..], errorLabel)
  }

  /** A source is among those dispatched exactly when some event sent to the default case carries it. */
  lemma {:induction false} DispatchesMembers(events: seq<PollEvent>, errorLabel: int, s: Source)
    ensures s in Dispatches(events, errorLabel) <==>
              exists i :: 0 <= i < |events| && events[i].source == Some(s) && Classify(events[i].result, errorLabel) == Dispatch
    decreases |events|
  {
    if |events| > 0 {
      var tail := events[1..];
      DispatchesMembers(tail, errorLabel, s);
      assert forall i :: 0 <= i < |tail| ==> tail[i] == events[i + 1];
      if exists i :: 0 <= i < |events| && events[i].source == Some(s) && Classify(events[i].result, errorLabel) == Dispatch {
        var i :| 0 <= i < |events| && events[i].source == Some(s) && Classify(events[i].result, errorLabel) == Dispatch;
        if i > 0 {
          assert tail[i - 1] == events[i];
        }
      }
    }
  }

  /** The sources of a prefix of k + 1 events: the first event's, then those of the next k. */
  lemma DispatchesPrefixCons(events: seq<PollEvent>, k: nat, errorLabel: int)
    requires k < |events|
    ensures Dispatches(events[..k + 1], errorLabel) ==
            (if Classify(events[0].result, errorLabel) == Dispatch && events[0].source.Some?
             then [events[0].source.value] else []) + Dispatches(events[1..][..k], errorLabel)
  {
    assert events[..k + 1][1..] == events[1..][..k];
  }

  /**
   * The inner `while (!Done)` loop over the events the looper delivers, in
   * order. It consumes events up to and including the first TIMEOUT or WAKE;
   * if there is none, it is still polling when the events run out.
   */
  function Drain(events: seq<PollEvent>, errorLabel: int): (r: Drained)
    ensures r.consumed <= |events|
    ensures r.done <==> exists i :: 0 <= i < |events| && Stops(events[i])
    ensures r.done ==> r.consumed > 0 && Stops(events[r.consumed - 1])
    ensures forall i :: 0 <= i < r.consumed - 1 ==> !Stops(events[i])
    ensures !r.done ==> r.consumed == |events|
    ensures |r.dispatched| <= r.consumed
    ensures r.dispatched == Dispatches(events[..r.consumed], errorLabel)
    decreases |events|
  {
    if |events| == 0 then Drained([], 0, false)
    else
      var e := events[0];
      match Classify(e.result, errorLabel)
      case StopPolling =>
        DispatchesPrefixCons(events, 0, errorLabel);
        Drained([], 1, true)
      case KeepPolling =>
        var rest := Drain(events[1..], errorLabel);
        assert forall i :: 1 <= i < |events| ==> events[i] == events[1..][i - 1];
        DispatchesPrefixCons(events, rest.consumed, errorLabel);
        Drained(rest.dispatched, rest.consumed + 1, rest.done)
      case Dispatch =>
        var rest := Drain(events[1..], errorLabel);
        assert forall i :: 1 <= i < |events| ==> events[i] == events[1..][i - 1];
        DispatchesPrefixCons(events, rest.consumed, errorLabel);
        var mine := if e.source.Some? then [e.source.value] else [];
        Drained(mine + rest.dispatched, rest.consumed + 1, rest.done)
  }

  /** Events after the one that ends polling are left for the next iteration. */
  lemma {:induction false} DrainStopsAtFirstStop(events: seq<PollEvent>, later: seq<PollEvent>, errorLabel: int)
    requires exists i :: 0 <= i < |events| && Stops(events[i])
    ensures Drain(events + later, errorLabel) == Drain(events, errorLabel)
    decreases |events|
  {
    assert (events + later)[0] == events[0];
    if !Stops(events[0]) {
      var i :| 0 <= i < |events| && Stops(events[i]);
      assert Stops(events[1..][i - 1]);
      assert (events + later)[1..] == events[1..] + later;
      DrainStopsAtFirstStop(events[1..], later, errorLabel);
    }
  }

  /** Whatever the error label, every dispatched source comes from a consumed event the switch sent to its default case. */
  lemma {:induction false} DrainDispatchesOnlyDefaultCase(events: seq<PollEvent>, errorLabel: int, j: nat)
    requires j < |Drain(events, errorLabel).dispatched|
    ensures exists i :: 0 <= i < Drain(events, errorLabel).consumed &&
              events[i].source == Some(Drain(events, errorLabel).dispatched[j]) &&
              Classify(events[i].result, errorLabel) == Dispatch
    decreases |events|
  {
    var e := events[0];
    var rest := Drain(events[1..], errorLabel);
    var mine := if e.source.Some? then [e.source.value] else [];
    if Classify(e.result, errorLabel) == Dispatch && j < |mine| {
      assert Drain(events, errorLabel).dispatched[j] == e.source.value;
    } else {
      var j' := if Classify(e.result, errorLabel) == Dispatch then j - |mine| else j;
      assert Drain(events, errorLabel).dispatched[j] == rest.dispatched[j'];
      DrainDispatchesOnlyDefaultCase(events[1..], errorLabel, j');
      var i :| 0 <= i < rest.consumed && events[1..][i].source == Some(rest.dispatched[j']) &&
                Classify(events[1..][i].result, errorLabel) == Dispatch;
      assert events[i + 1] == events[1..][i];
    }
  }

  /** With the corrected switch, an event is dispatched only if it carries a source and no looper status code. */
  lemma CorrectedDispatchesOnlyIdents(events: seq<PollEvent>, j: nat)
    requires j < |Drain(events, PollError).dispatched|
    ensures exists i :: 0 <= i < Drain(events, PollError).consumed &&
              events[i].source == Some(Drain(events, PollError).dispatched[j]) &&
              events[i].result !in {PollWake, PollCallback, PollTimeout, PollError}
  {
    DrainDispatchesOnlyDefaultCase(events, PollError, j);
    var i :| 0 <= i < Drain(events, PollError).consumed &&
              events[i].source == Some(Drain(events, PollError).dispatched[j]) &&
              Classify(events[i].result, PollError) == Dispatch;
    assert ClassifyCorrected(events[i].result) == Dispatch;
  }

  /**
   * What `ALooper_pollOnce` can deliver: it fills the data pointer only when
   * it returns an identifier (>= 0) and sets it to null for every negative
   * status code.
   */
  predicate WellFormed(events: seq<PollEvent>) {
    forall i :: 0 <= i < |events| ==> events[i].result < 0 ==> events[i].source.None?
  }

  /** No event carries the looper identifier 4 that the as-written switch swallows. */
  predicate AvoidsIdentFour(events: seq<PollEvent>) {
    forall i :: 0 <= i < |events| ==> events[i].result != EventError
  }

  /**
   * On what the looper can deliver, the as-written switch dispatches exactly
   * what the corrected one does, unless an identifier 4 comes up: a poll
   * error reaches the default case with a null source and dispatches
   * nothing, so it only loses its log line.
   */
  lemma {:induction false} SwitchesAgreeWithoutIdentFour(events: seq<PollEvent>)
    requires WellFormed(events) && AvoidsIdentFour(events)
    ensures Drain(events, EventError) == Drain(events, PollError)
    decreases |events|
  {
    if |events| > 0 {
      var tail := events[1..];
      assert forall i :: 0 <= i < |tail| ==> tail[i] == events[i + 1];
      SwitchesAgreeWithoutIdentFour(tail);
      assert events[0].result != EventError;
      assert events[0].result == PollError ==> events[0].source.None?;
    }
  }

  /**
   * An event with identifier 4 is logged as an error and its source is
   * never processed as written; the corrected switch processes it.
   */
  lemma IdentFourSwallowed(s: Source)
    ensures WellFormed([PollEvent(EventError, Some(s)), PollEvent(PollTimeout, None)])
    ensures Drain([PollEvent(EventError, Some(s)), PollEvent(PollTimeout, None)], EventError).dispatched == []
    ensures Drain([PollEvent(EventError, Some(s)), PollEvent(PollTimeout, None)], PollError).dispatched == [s]
  {
  }

  // ---------------------------------------------------------------- main loop

  /** `pSource->process` for one source: a command runs `handleCmd`; input leaves the renderer bookkeeping alone. */
  function Process(a: AppState, src: Source): (a': AppState)
    requires Valid(a)
    ensures Valid(a')
    ensures a'.nextId >= a.nextId
    ensures src.InputSource? ==> a' == a
    ensures src.CommandSource? ==> a' == HandleCmd(a, src.cmd)
  {
    match src
    case CommandSource(cmd) => HandleCmd(a, cmd)
    case InputSource => a
  }

  /** Process dispatched sources in order. */
  function ProcessAll(a: AppState, sources: seq<Source>): (a': AppState)
    requires Valid(a)
    ensures Valid(a')
    ensures a'.nextId >= a.nextId
    decreases |sources|
  {
    if |sources| == 0 then a else ProcessAll(Process(a, sources[0]), sources[1..])
  }

  /** Processing one more source continues from where the others left off. */
  lemma {:induction false} ProcessAllSnoc(a: AppState, sources: seq<Source>, x: Source)
    requires Valid(a)
    ensures ProcessAll(a, sources + [x]) == Process(ProcessAll(a, sources), x)
    decreases |sources|
  {
    if |sources| > 0 {
      assert (sources + [x])[1..] == sources[1..] + [x];
      ProcessAllSnoc(Process(a, sources[0]), sources[1..], x);
    } else {
      assert ([x])[1..] == [];
    }
  }

  /** The commands that change the renderer pointer. */
  predicate IsWindowCmd(src: Source) {
    src.CommandSource? && (src.cmd.InitWindow? || src.cmd.TermWindow?)
  }

  /** The last INIT_WINDOW or TERM_WINDOW among `sources`, if any. */
  function LastWindowCmd(sources: seq<Source>): Option<Command>
    decreases |sources|
  {
    if |sources| == 0 then None
    else if IsWindowCmd(sources[|sources| - 1]) then Some(sources[|sources| - 1].cmd)
    else LastWindowCmd(sources[..|sources| - 1])
  }

  /**
   * What a batch of dispatched sources does to the renderer pointer is
   * decided by its last window command: with none the state is unchanged;
   * after a TERM_WINDOW the pointer is null; after an INIT_WINDOW it points
   * to a live renderer allocated during the batch.
   */
  lemma {:induction false} ProcessAllFollowsLastWindowCmd(a: AppState, sources: seq<Source>)
    requires Valid(a)
    ensures LastWindowCmd(sources).None? ==> ProcessAll(a, sources) == a
    ensures LastWindowCmd(sources) == Some(TermWindow) ==> ProcessAll(a, sources).userData == 0
    ensures LastWindowCmd(sources) == Some(InitWindow) ==>
              && ProcessAll(a, sources).userData != 0
              && ProcessAll(a, sources).userData !in a.live
              && ProcessAll(a, sources).userData in ProcessAll(a, sources).live
    decreases |sources|
  {
    if |sources| > 0 {
      var prefix := sources[..|sources| - 1];
      var last := sources[|sources| - 1];
      assert sources == prefix + [last];
      ProcessAllSnoc(a, prefix, last);
      ProcessAllFollowsLastWindowCmd(a, prefix);
    }
  }

  /** The events of one outer iteration, and whether `destroyRequested` is set when it ends. */
  datatype Batch = Batch(events: seq<PollEvent>, destroyRequested: bool)

  /** Whether the inner polling loop of a batch reaches TIMEOUT or WAKE. */
  predicate Finished(b: Batch, errorLabel: int) {
    Drain(b.events, errorLabel).done
  }

  /** One outer iteration: the state after it, the renderer it ticked (0 for none), and whether it finished polling. */
  datatype Round = Round(state: AppState, ticked: nat, finished: bool)

  /** One pass of the `do { ... } while` body: drain the looper, then tick the renderer if there is one. */
  function Iteration(a: AppState, b: Batch, errorLabel: int): (r: Round)
    requires Valid(a)
    ensures Valid(r.state)
    ensures r.finished <==> Finished(b, errorLabel)
    ensures r.state == ProcessAll(a, Drain(b.events, errorLabel).dispatched)
    ensures r.ticked != 0 ==> r.finished && r.ticked == r.state.userData && r.ticked in r.state.live
    ensures r.finished && r.state.userData != 0 ==> r.ticked == r.state.userData
  {
    var d := Drain(b.events, errorLabel);
    var a' := ProcessAll(a, d.dispatched);
    if !d.done then Round(a', 0, false)
    else Round(a', a'.userData, true)
  }

  /** Why an observed run of the main loop ended. */
  datatype Exit = DestroyRequested | StillPolling | OutOfBatches

  /** Index i + 1 of `[x] + s` is index i of `s`. */
  lemma ConsIndex<T>(x: T, s: seq<T>)
    ensures ([x] + s)[0] == x
    ensures forall i :: 1 <= i < 1 + |s| ==> ([x] + s)[i] == s[i - 1]
  {
  }

  /** Whether a run that ended on batch `last` after `iterations` of `total` batches ended for reason `exit`. */
  predicate EndedBy(exit: Exit, last: Batch, iterations: nat, total: nat, errorLabel: int) {
    match exit
    case DestroyRequested => Finished(last, errorLabel) && last.destroyRequested
    case StillPolling => !Finished(last, errorLabel)
    case OutOfBatches => Finished(last, errorLabel) && !last.destroyRequested && iterations == total
  }

  /** A run of the main loop: the final state, the renderers ticked, the iterations entered, and why it ended. */
  datatype AppRun = AppRun(state: AppState, ticks: seq<nat>, iterations: nat, exit: Exit)

  /**
   * `android_main`'s do-while loop over the batches the platform delivers:
   * the body runs at least once (`first`), and the loop ends after the first
   * batch that leaves `destroyRequested` set. A batch whose polling never
   * finishes ends the observed run in the middle of that iteration.
   */
  function RunApp(a: AppState, first: Batch, rest: seq<Batch>, errorLabel: int): (r: AppRun)
    requires Valid(a)
    ensures Valid(r.state)
    ensures 1 <= r.iterations <= 1 + |rest|
    ensures |r.ticks| <= r.iterations
    ensures forall i :: 0 <= i < |r.ticks| ==> r.ticks[i] != 0
    ensures r.iterations == 1 ==> (r.exit == StillPolling <==> !Finished(first, errorLabel))
    decreases |rest|
  {
    var round := Iteration(a, first, errorLabel);
    var mine := if round.ticked != 0 then [round.ticked] else [];
    if !round.finished then AppRun(round.state, [], 1, StillPolling)
    else if first.destroyRequested then AppRun(round.state, mine, 1, DestroyRequested)
    else if |rest| == 0 then AppRun(round.state, mine, 1, OutOfBatches)
    else
      var tail := RunApp(round.state, rest[0], rest[1..], errorLabel);
      AppRun(tail.state, mine + tail.ticks, tail.iterations + 1, tail.exit)
  }

  /** The sources dispatched by draining each batch in turn, concatenated. */
  function DispatchedIn(batches: seq<Batch>, errorLabel: int): seq<Source>
    decreases |batches|
  {
    if |batches| == 0 then []
    else Drain(batches[0].events, errorLabel).dispatched + DispatchedIn(batches[1..], errorLabel)
  }

  /** Processing two lists of sources one after the other is processing their concatenation. */
  lemma {:induction false} ProcessAllAppend(a: AppState, s: seq<Source>, t: seq<Source>)
    requires Valid(a)
    ensures ProcessAll(a, s + t) == ProcessAll(ProcessAll(a, s), t)
    decreases |s|
  {
    if |s| > 0 {
      assert (s + t)[0] == s[0];
      assert (s + t)[1..] == s[1..] + t;
      ProcessAllAppend(Process(a, s[0]), s[1..], t);
    } else {
      assert s + t == t;
    }
  }

  /** The renderer bookkeeping after running one iteration on each of `batches` in turn. */
  function StateAfterBatches(a: AppState, batches: seq<Batch>, errorLabel: int): (a': AppState)
    requires Valid(a)
    ensures Valid(a')
    decreases |batches|
  {
    if |batches| == 0 then a
    else StateAfterBatches(Iteration(a, batches[0], errorLabel).state, batches[1..], errorLabel)
  }

  /** Iterating over batches processes, in order, everything their drains dispatch. */
  lemma {:induction false} BatchesProcessInOrder(a: AppState, batches: seq<Batch>, errorLabel: int)
    requires Valid(a)
    ensures StateAfterBatches(a, batches, errorLabel) == ProcessAll(a, DispatchedIn(batches, errorLabel))
    decreases |batches|
  {
    if |batches| > 0 {
      var mid := Iteration(a, batches[0], errorLabel).state;
      BatchesProcessInOrder(mid, batches[1..], errorLabel);
      ProcessAllAppend(a, Drain(batches[0].events, errorLabel).dispatched, DispatchedIn(batches[1..], errorLabel));
    }
  }

  /** The first k + 1 batches: the first one, then the next k as the recursive call of `RunApp` sees them. */
  lemma PrefixCons(b: Batch, bs: seq<Batch>, k: nat)
    requires 0 < |bs| && k <= |bs|
    ensures ([b] + bs)[..k + 1] == [b] + ([bs[0]] + bs[1..])[..k]
    ensures ([b] + ([bs[0]] + bs[1..])[..k])[0] == b
    ensures ([b] + ([bs[0]] + bs[1..])[..k])[1..] == ([bs[0]] + bs[1..])[..k]
  {
    assert [bs[0]] + bs[1..] == bs;
  }

  /** The first batch alone. */
  lemma PrefixOne(b: Batch, bs: seq<Batch>)
    ensures ([b] + bs)[..1] == [b] && [b][0] == b && [b][1..] == []
  {
  }

  /** Whether a run goes on past its first batch. */
  predicate Continues(a: AppState, first: Batch, rest: seq<Batch>, errorLabel: int)
    requires Valid(a)
  {
    Iteration(a, first, errorLabel).finished && !first.destroyRequested && |rest| > 0
  }

  /** A run that goes on past its first batch ends where the run from the second batch ends. */
  lemma RunAppContinues(a: AppState, first: Batch, rest: seq<Batch>, errorLabel: int)
    requires Valid(a) && Continues(a, first, rest, errorLabel)
    ensures var tail := RunApp(Iteration(a, first, errorLabel).state, rest[0], rest[1..], errorLabel);
            && RunApp(a, first, rest, errorLabel).state == tail.state
            && RunApp(a, first, rest, errorLabel).iterations == tail.iterations + 1
            && RunApp(a, first, rest, errorLabel).exit == tail.exit
  {
  }

  /** A run ends in the state of iterating over exactly the batches it entered. */
  lemma {:induction false} RunAppFollowsBatches(a: AppState, first: Batch, rest: seq<Batch>, errorLabel: int)
    requires Valid(a)
    ensures var r := RunApp(a, first, rest, errorLabel);
            r.state == StateAfterBatches(a, ([first] + rest)[..r.iterations], errorLabel)
    decreases |rest|
  {
    var mid := Iteration(a, first, errorLabel).state;
    if Continues(a, first, rest, errorLabel) {
      var k := RunApp(mid, rest[0], rest[1..], errorLabel).iterations;
      RunAppFollowsBatches(mid, rest[0], rest[1..], errorLabel);
      RunAppContinues(a, first, rest, errorLabel);
      PrefixCons(first, rest, k);
    } else {
      PrefixOne(first, rest);
    }
  }

  /**
   * The do-while loop carries the renderer bookkeeping from one iteration to
   * the next: the state a run ends in is that of processing, in order, every
   * source dispatched in the iterations it entered.
   */
  lemma RunAppState(a: AppState, first: Batch, rest: seq<Batch>, errorLabel: int)
    requires Valid(a)
    ensures var r := RunApp(a, first, rest, errorLabel);
            r.state == ProcessAll(a, DispatchedIn(([first] + rest)[..r.iterations], errorLabel))
  {
    var r := RunApp(a, first, rest, errorLabel);
    RunAppFollowsBatches(a, first, rest, errorLabel);
    BatchesProcessInOrder(a, ([first] + rest)[..r.iterations], errorLabel);
  }

  /**
   * Why run `r` over `batches` ended where it did: every batch before its
   * last finished polling without a destroy request, and the last one
   * accounts for the exit reason.
   */
  predicate ExitExplained(r: AppRun, batches: seq<Batch>, errorLabel: int) {
    && 1 <= r.iterations <= |batches|
    && (forall i :: 0 <= i < r.iterations - 1 ==>
          Finished(batches[i], errorLabel) && !batches[i].destroyRequested)
    && EndedBy(r.exit, batches[r.iterations - 1], r.iterations, |batches|, errorLabel)
  }

  /** A run that ends on its first batch is explained by that batch. */
  lemma RunAppExitLast(a: AppState, first: Batch, rest: seq<Batch>, errorLabel: int)
    requires Valid(a) && !Continues(a, first, rest, errorLabel)
    ensures ExitExplained(RunApp(a, first, rest, errorLabel), [first] + rest, errorLabel)
  {
    ConsIndex(first, rest);
  }

  /** Prefixing a batch that finished without a destroy request to an explained run explains the longer run. */
  lemma ExplainedCons(first: Batch, rest: seq<Batch>, tail: AppRun, r: AppRun, errorLabel: int)
    requires |rest| > 0 && Finished(first, errorLabel) && !first.destroyRequested
    requires ExitExplained(tail, [rest[0]] + rest[1..], errorLabel)
    requires r.iterations == tail.iterations + 1 && r.exit == tail.exit
    ensures ExitExplained(r, [first] + rest, errorLabel)
  {
    assert [rest[0]] + rest[1..] == rest;
    ConsIndex(first, rest);
  }

  /** Every run is explained by the batches it was given. */
  lemma {:induction false} RunAppExplained(a: AppState, first: Batch, rest: seq<Batch>, errorLabel: int)
    requires Valid(a)
    ensures ExitExplained(RunApp(a, first, rest, errorLabel), [first] + rest, errorLabel)
    decreases |rest|
  {
    if Continues(a, first, rest, errorLabel) {
      var mid := Iteration(a, first, errorLabel).state;
      RunAppExplained(mid, rest[0], rest[1..], errorLabel);
      RunAppContinues(a, first, rest, errorLabel);
      ExplainedCons(first, rest, RunApp(mid, rest[0], rest[1..], errorLabel), RunApp(a, first, rest, errorLabel), errorLabel);
    } else {
      RunAppExitLast(a, first, rest, errorLabel);
    }
  }

  /**
   * Which batch ends a run, and why: every batch before the last finished
   * polling without a destroy request, and the last one accounts for the
   * exit reason.
   */
  lemma RunAppExit(a: AppState, first: Batch, rest: seq<Batch>, errorLabel: int)
    requires Valid(a)
    ensures var r := RunApp(a, first, rest, errorLabel);
            && (forall i :: 0 <= i < r.iterations - 1 ==>
                  Finished(([first] + rest)[i], errorLabel) && !([first] + rest)[i].destroyRequested)
            && EndedBy(r.exit, ([first] + rest)[r.iterations - 1], r.iterations, 1 + |rest|, errorLabel)
  {
    RunAppExplained(a, first, rest, errorLabel);
  }

  /** A run that did not stop mid-poll, and ends with a renderer held, ended on a tick of that renderer. */
  predicate EndsOnHeldRenderer(r: AppRun) {
    r.exit != StillPolling && r.state.userData != 0 ==>
      |r.ticks| > 0 && r.ticks[|r.ticks| - 1] == r.state.userData
  }

  /** Every run that did not stop mid-poll ends on a tick of the renderer it still holds. */
  lemma {:induction false} RunAppLastTick(a: AppState, first: Batch, rest: seq<Batch>, errorLabel: int)
    requires Valid(a)
    ensures EndsOnHeldRenderer(RunApp(a, first, rest, errorLabel))
    decreases |rest|
  {
    var round := Iteration(a, first, errorLabel);
    var mine := if round.ticked != 0 then [round.ticked] else [];
    var r := RunApp(a, first, rest, errorLabel);
    if !round.finished {
      assert r.exit == StillPolling;
    } else if first.destroyRequested || |rest| == 0 {
      assert r.state == round.state && r.ticks == mine;
    } else {
      var tail := RunApp(round.state, rest[0], rest[1..], errorLabel);
      RunAppLastTick(round.state, rest[0], rest[1..], errorLabel);
      assert r.state == tail.state && r.exit == tail.exit && r.ticks == mine + tail.ticks;
      if tail.exit != StillPolling && tail.state.userData != 0 {
        assert (mine + tail.ticks)[|mine + tail.ticks| - 1] == tail.ticks[|tail.ticks| - 1];
      }
    }
  }
}
