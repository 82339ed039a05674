/**
 * The terminal session `Tui`: construction, `next_key` with its cleanup
 * commands, and the two drop handlers, over the abstract terminal.
 */
module Session {
  import opened Base
  import opened Events
  import opened Terminal
  import opened KeyDispatch

  /** The zero-sized guard whose drop turns raw mode off. */
  datatype RawMode = RawMode

  /** A live session: the guard, the cursor cell captured at start, the quit keys. */
  datatype Tui = Tui(rawModeGuard: RawMode, position: Position, quitOn: seq<char>)

  /**
   * A fallible operation: its result, the terminal calls it made, in order,
   * and the failures a guard dropped on the way out logged instead of returning.
   */
  datatype Attempt<T> = Attempt(result: Result<T, TerminalError>, calls: seq<CallSite>, logged: seq<CallSite>)

  /** What a drop handler did: its calls, and the failures it logged instead of returning. */
  datatype Teardown = Teardown(calls: seq<CallSite>, logged: seq<CallSite>)

  /** `RawMode::enable`: turns raw mode on and returns the guard. */
  function EnableRaw(dev: Device): (a: Attempt<RawMode>)
    ensures a.calls == [EnableRawMode]
    ensures a.logged == []
    ensures a.result.Ok? <==> !dev.Fails(EnableRawMode)
    ensures a.result.Ok? ==> forall f :: Replay(f, dev, a.calls).rawMode
    ensures a.result.Err? ==> a.result.error == TerminalError(EnableRawMode)
    ensures a.result.Err? ==> forall f :: Replay(f, dev, a.calls) == f
  {
    var calls := [EnableRawMode];
    assert forall f :: Replay(f, dev, calls) == Step(f, dev, EnableRawMode);
    if dev.Fails(EnableRawMode) then Attempt(Err(TerminalError(EnableRawMode)), calls, [])
    else Attempt(Ok(RawMode), calls, [])
  }

  /** `Drop for RawMode`: turns raw mode off; a failure is logged, not returned. */
  function DropRawMode(dev: Device): (t: Teardown)
    ensures t.calls == [GuardDisableRawMode]
    ensures !dev.Fails(GuardDisableRawMode) ==> forall f :: !Replay(f, dev, t.calls).rawMode
    ensures forall f :: Replay(f, dev, t.calls).cursorVisible == f.cursorVisible
    ensures t.logged == if dev.Fails(GuardDisableRawMode) then [GuardDisableRawMode] else []
  {
    var calls := [GuardDisableRawMode];
    assert forall f :: Replay(f, dev, calls) == Step(f, dev, GuardDisableRawMode);
    Teardown(calls, Logged(dev, calls))
  }

  /**
   * `Tui::new`: raw mode on, cursor hidden, cursor cell captured. When hiding
   * or the position query fails, the guard already created is dropped on the
   * way out, so raw mode is turned off again; a hidden cursor stays hidden.
   * `at` is the cell the terminal reports.
   */
  function New(quitOn: seq<char>, at: Position, dev: Device): (a: Attempt<Tui>)
    ensures a.result.Ok? <==>
      !dev.Fails(EnableRawMode) && !dev.Fails(HideCursor) && !dev.Fails(QueryPosition)
    ensures a.result.Ok? ==> a.result.value == Tui(RawMode, at, quitOn)
    ensures a.result.Ok? ==> forall f :: Replay(f, dev, a.calls) == Flags(true, false)
    ensures a.result.Err? && a.result.error.site == EnableRawMode <==> dev.Fails(EnableRawMode)
    ensures a.result.Err? && a.result.error.site == HideCursor <==>
      !dev.Fails(EnableRawMode) && dev.Fails(HideCursor)
    ensures a.result.Err? && a.result.error.site == QueryPosition <==>
      !dev.Fails(EnableRawMode) && !dev.Fails(HideCursor) && dev.Fails(QueryPosition)
    ensures a.result.Err? && a.result.error.site == EnableRawMode ==>
      forall f :: Replay(f, dev, a.calls) == f
    ensures a.result.Err? && a.result.error.site != EnableRawMode ==>
      forall f ::
        var g := Replay(f, dev, a.calls);
        && (g.rawMode <==> dev.Fails(GuardDisableRawMode))
        && (a.result.error.site == HideCursor ==> g.cursorVisible == f.cursorVisible)
        && (a.result.error.site == QueryPosition ==> !g.cursorVisible)
    ensures a.logged ==
      if a.result.Err? && a.result.error.site != EnableRawMode && dev.Fails(GuardDisableRawMode)
      then [GuardDisableRawMode] else []
  {
    var enable := EnableRaw(dev);
    if enable.result.Err? then Attempt(Err(enable.result.error), enable.calls, enable.logged)
    else
      var guardDrop := DropRawMode(dev);
      if dev.Fails(HideCursor) then
        var calls := enable.calls + [HideCursor] + guardDrop.calls;
        assert calls == [EnableRawMode, HideCursor, GuardDisableRawMode];
        HideFailureFlags(dev);
        Attempt(Err(TerminalError(HideCursor)), calls, guardDrop.logged)
      else if dev.Fails(QueryPosition) then
        var calls := enable.calls + [HideCursor, QueryPosition] + guardDrop.calls;
        assert calls == [EnableRawMode, HideCursor, QueryPosition, GuardDisableRawMode];
        PositionFailureFlags(dev);
        Attempt(Err(TerminalError(QueryPosition)), calls, guardDrop.logged)
      else
        var calls := enable.calls + [HideCursor, QueryPosition];
        assert calls == [EnableRawMode, HideCursor, QueryPosition];
        ReplayCalls3(dev, EnableRawMode, HideCursor, QueryPosition);
        Attempt(Ok(Tui(RawMode, at, quitOn)), calls, [])
  }

  // The flag lemmas below state the effect of one fixed call sequence each;
  // they keep the proofs of `New` and `Drop` small enough for the solver.

  /** Enable, a failed hide, then the guard's drop. */
  lemma HideFailureFlags(dev: Device)
    requires !dev.Fails(EnableRawMode) && dev.Fails(HideCursor)
    ensures forall f ::
      var g := Replay(f, dev, [EnableRawMode, HideCursor, GuardDisableRawMode]);
      && (g.rawMode <==> dev.Fails(GuardDisableRawMode))
      && g.cursorVisible == f.cursorVisible
  {
  }

  /** Enable, hide, a failed position query, then the guard's drop. */
  lemma PositionFailureFlags(dev: Device)
    requires !dev.Fails(EnableRawMode) && !dev.Fails(HideCursor) && dev.Fails(QueryPosition)
    ensures forall f ::
      var g := Replay(f, dev, [EnableRawMode, HideCursor, QueryPosition, GuardDisableRawMode]);
      && (g.rawMode <==> dev.Fails(GuardDisableRawMode))
      && !g.cursorVisible
  {
  }

  lemma ReplayCalls3(dev: Device, s1: CallSite, s2: CallSite, s3: CallSite)
    ensures forall f ::
      Replay(f, dev, [s1, s2, s3]) == Step(Step(Step(f, dev, s1), dev, s2), dev, s3)
  {
    forall f ensures Replay(f, dev, [s1, s2, s3]) == Step(Step(Step(f, dev, s1), dev, s2), dev, s3) {
      var f1 := Step(f, dev, s1);
      var f2 := Step(f1, dev, s2);
      assert [s1, s2, s3][1..] == [s2, s3];
      assert [s2, s3][1..] == [s3];
      assert [s3][1..] == [];
      assert Replay(f, dev, [s1, s2, s3]) == Replay(f1, dev, [s2, s3]);
      assert Replay(f1, dev, [s2, s3]) == Replay(f2, dev, [s3]);
      assert Replay(f2, dev, [s3]) == Replay(Step(f2, dev, s3), dev, []);
    }
  }

  /** The fixed cleanup commands of `next_key`, in the order they are queued. */
  function ClearCommands(at: Position): (cmds: seq<Command>) {
    [MoveTo(at.column, at.row), Clear(FromCursorDown)]
  }

  /** The cleanup calls of `next_key`, in the order `?` reaches them. */
  const CleanupSteps: seq<CallSite> := [QueueMoveTo, QueueClear, FlushOutput]

  /** What the cleanup block did: commands queued, whether they were flushed, the error if any. */
  datatype CleanupRun = CleanupRun(queued: seq<Command>, flushed: bool, error: Option<TerminalError>)

  /**
   * The cleanup block after the loop: queue the move back to `at`, queue the
   * clear from the cursor down, flush; the first failing step ends it.
   */
  function Cleanup(at: Position, dev: Device): (c: CleanupRun)
    ensures |c.queued| <= 2 && c.queued == ClearCommands(at)[..|c.queued|]
    ensures forall j :: 0 <= j < |c.queued| ==> !dev.Fails(CleanupSteps[j])
    ensures c.error.None? <==> forall j :: 0 <= j < |CleanupSteps| ==> !dev.Fails(CleanupSteps[j])
    ensures c.error.None? ==> c.queued == ClearCommands(at) && c.flushed
    ensures c.error.Some? ==>
      && !c.flushed
      && c.error.value == TerminalError(CleanupSteps[|c.queued|])
      && dev.Fails(CleanupSteps[|c.queued|])
  {
    assert CleanupSteps[0] == QueueMoveTo && CleanupSteps[1] == QueueClear && CleanupSteps[2] == FlushOutput;
    if dev.Fails(QueueMoveTo) then CleanupRun([], false, Some(TerminalError(QueueMoveTo)))
    else if dev.Fails(QueueClear) then
      CleanupRun([MoveTo(at.column, at.row)], false, Some(TerminalError(QueueClear)))
    else if dev.Fails(FlushOutput) then
      CleanupRun(ClearCommands(at), false, Some(TerminalError(FlushOutput)))
    else CleanupRun(ClearCommands(at), true, None)
  }

  /**
   * What one `next_key` call did: returned after `consumed` inputs, with the
   * commands it queued and whether it flushed them, or is still waiting
   * for input after reading all of it.
   */
  datatype NextKeyOutcome =
    | Returned(result: Result<Option<char>, TerminalError>, consumed: nat, queued: seq<Command>, flushed: bool)
    | Waiting(consumed: nat)

  /**
   * `Tui::next_key` over a finite stream of read results. A read error
   * leaves through `?` before the cleanup block; an accepted event runs the
   * cleanup, whose error, if any, replaces the answer.
   */
  function NextKey(tui: Tui, dev: Device, inputs: seq<Input>): (o: NextKeyOutcome)
    ensures o.Waiting? <==> AllSkipped(tui.quitOn, inputs)
    ensures o.Waiting? ==> o.consumed == |inputs|
    ensures o.Returned? ==> 1 <= o.consumed <= |inputs| && |o.queued| <= 2
    ensures o.Returned? ==> o.queued == ClearCommands(tui.position)[..|o.queued|]
    ensures o.Returned? && 1 <= o.consumed <= |inputs| && inputs[o.consumed - 1] == ReadFailed ==>
      o.result == Err(TerminalError(ReadEvent)) && o.queued == [] && !o.flushed
    ensures o.Returned? && o.result.Ok? ==> o.queued == ClearCommands(tui.position) && o.flushed
    ensures o.Returned? && o.result.Err? ==> !o.flushed
  {
    match ReadLoop(tui.quitOn, inputs)
    case Blocked => Waiting(|inputs|)
    case Failed(n) => Returned(Err(TerminalError(ReadEvent)), n, [], false)
    case Accepted(answer, n) =>
      var c := Cleanup(tui.position, dev);
      Returned(if c.error.Some? then Err(c.error.value) else Ok(answer), n, c.queued, c.flushed)
  }

  /**
   * A call that returns was decided by the first input that is not a
   * skipped event, and a returned answer is that event's classification.
   */
  lemma NextKeyDecidedByFirstDecisive(tui: Tui, dev: Device, inputs: seq<Input>)
    ensures
      var o := NextKey(tui, dev, inputs);
      o.Returned? ==>
        && 1 <= o.consumed <= |inputs|
        && AllSkipped(tui.quitOn, inputs[..o.consumed - 1])
        && (inputs[o.consumed - 1].Received? ==> Classify(tui.quitOn, inputs[o.consumed - 1].ev).Stop?)
        && (o.result.Ok? ==>
              && inputs[o.consumed - 1].Received?
              && Classify(tui.quitOn, inputs[o.consumed - 1].ev) == Stop(o.result.value))
  {
  }

  /**
   * Once an event is accepted, the answer is returned exactly when the
   * whole cleanup succeeds; otherwise the first failing cleanup step is the
   * error, and only the commands before it were queued.
   */
  lemma CleanupErrorReplacesAnswer(tui: Tui, dev: Device, inputs: seq<Input>)
    requires ReadLoop(tui.quitOn, inputs).Accepted?
    ensures
      var o := NextKey(tui, dev, inputs);
      && o.Returned?
      && (o.result.Ok? <==> forall j :: 0 <= j < |CleanupSteps| ==> !dev.Fails(CleanupSteps[j]))
      && (o.result.Ok? ==> o.result.value == ReadLoop(tui.quitOn, inputs).answer)
      && (o.result.Err? ==>
            && !o.flushed
            && o.result.error == TerminalError(CleanupSteps[|o.queued|])
            && dev.Fails(CleanupSteps[|o.queued|])
            && forall j :: 0 <= j < |o.queued| ==> !dev.Fails(CleanupSteps[j]))
  {
  }

  /**
   * Events skipped in front of the stream change nothing but the count:
   * the next event that is not skipped decides the call, and the cleanup
   * still targets the cell captured by `new`.
   */
  lemma SkippedEventsDoNotMatter(tui: Tui, dev: Device, skipped: seq<Input>, rest: seq<Input>)
    requires AllSkipped(tui.quitOn, skipped)
    ensures NextKey(tui, dev, skipped + rest) == Delay(NextKey(tui, dev, rest), |skipped|)
  {
    SkippedPrefix(tui.quitOn, skipped, rest);
  }

  /** The same outcome after `k` more inputs. */
  function Delay(o: NextKeyOutcome, k: nat): (later: NextKeyOutcome) {
    match o
    case Returned(result, n, queued, flushed) => Returned(result, n + k, queued, flushed)
    case Waiting(n) => Waiting(n + k)
  }

  /** `Drop for Tui`: raw mode off, cursor shown, then the guard field's own drop. */
  function Drop(tui: Tui, dev: Device): (t: Teardown)
    ensures |t.calls| == 3
    ensures t.calls[0] == SessionDisableRawMode && t.calls[1] == SessionShowCursor && t.calls[2] == GuardDisableRawMode
    ensures !(dev.Fails(SessionDisableRawMode) && dev.Fails(GuardDisableRawMode)) ==>
      forall f :: !Replay(f, dev, t.calls).rawMode
    ensures dev.Fails(SessionDisableRawMode) && dev.Fails(GuardDisableRawMode) ==>
      forall f :: Replay(f, dev, t.calls).rawMode == f.rawMode
    ensures !dev.Fails(SessionShowCursor) ==> forall f :: Replay(f, dev, t.calls).cursorVisible
    ensures dev.Fails(SessionShowCursor) ==>
      forall f :: Replay(f, dev, t.calls).cursorVisible == f.cursorVisible
    ensures forall s :: multiset(t.logged)[s] == if dev.Fails(s) then multiset(t.calls)[s] else 0
  {
    var calls := [SessionDisableRawMode, SessionShowCursor] + DropRawMode(dev).calls;
    assert calls == [SessionDisableRawMode, SessionShowCursor, GuardDisableRawMode];
    TeardownFlagsAll(dev);
    Teardown(calls, Logged(dev, calls))
  }

  /** The flags after the three teardown calls, from any starting flags. */
  lemma TeardownFlagsAll(dev: Device)
    ensures forall f ::
      var g := Replay(f, dev, [SessionDisableRawMode, SessionShowCursor, GuardDisableRawMode]);
      && (g.rawMode <==> f.rawMode && dev.Fails(SessionDisableRawMode) && dev.Fails(GuardDisableRawMode))
      && (g.cursorVisible <==> f.cursorVisible || !dev.Fails(SessionShowCursor))
  {
  }

  /**
   * A whole session, from `new` to drop. `next_key` borrows the session
   * and makes no flag-changing call, so the flags it sees are the ones
   * `new` left. At the end raw mode is off unless both disabling calls
   * failed, and the cursor is visible unless showing it failed. A disable
   * is modelled as switching raw mode off, so this holds for any flags
   * the terminal had before `new`.
   */
  lemma {:induction false} SessionLifecycle(quitOn: seq<char>, at: Position, dev: Device, before: Flags)
    requires New(quitOn, at, dev).result.Ok?
    ensures Replay(before, dev, New(quitOn, at, dev).calls) == Flags(true, false)
    ensures
      var start := New(quitOn, at, dev);
      var end := Replay(before, dev, start.calls + Drop(start.result.value, dev).calls);
      && (end.rawMode <==> dev.Fails(SessionDisableRawMode) && dev.Fails(GuardDisableRawMode))
      && (end.cursorVisible <==> !dev.Fails(SessionShowCursor))
  {
    var start := New(quitOn, at, dev);
    ReplayAppend(before, dev, start.calls, Drop(start.result.value, dev).calls);
  }

  /** With no failures a session ends with raw mode off and the cursor shown. */
  lemma CleanSessionRestoresTerminal(quitOn: seq<char>, at: Position, dev: Device, before: Flags)
    requires dev.failing == {}
    ensures New(quitOn, at, dev).result.Ok?
    ensures
      var start := New(quitOn, at, dev);
      Replay(before, dev, start.calls + Drop(start.result.value, dev).calls) == Flags(false, true)
  {
    SessionLifecycle(quitOn, at, dev, before);
  }

  /** Quit keys `['q']`: `x` is answered, then `q` ends the session without an answer. */
  lemma AnswerThenQuit(at: Position)
    ensures
      var tui := Tui(RawMode, at, ['q']);
      var inputs := [Received(Key(KeyEvent(Char('x'), NONE, Press))),
                     Received(Key(KeyEvent(Char('q'), NONE, Press)))];
      && NextKey(tui, Device({}), inputs) == Returned(Ok(Some('x')), 1, ClearCommands(at), true)
      && NextKey(tui, Device({}), inputs[1..]) == Returned(Ok(None), 1, ClearCommands(at), true)
  {
  }

  /** No quit keys: Control+A is skipped and Control+C then ends the call without an answer. */
  lemma ControlAIsSkipped(at: Position)
    ensures
      var tui := Tui(RawMode, at, []);
      var inputs := [Received(Key(KeyEvent(Char('a'), CONTROL, Press))),
                     Received(Key(KeyEvent(Char('c'), CONTROL, Press)))];
      NextKey(tui, Device({}), inputs) == Returned(Ok(None), 2, ClearCommands(at), true)
  {
    var tui := Tui(RawMode, at, []);
    var skipped := [Received(Key(KeyEvent(Char('a'), CONTROL, Press)))];
    var rest := [Received(Key(KeyEvent(Char('c'), CONTROL, Press)))];
    assert Classify([], skipped[0].ev) == Skip;
    SkippedEventsDoNotMatter(tui, Device({}), skipped, rest);
    assert skipped + rest == [skipped[0], rest[0]];
  }
}
