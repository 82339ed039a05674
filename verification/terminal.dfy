/**
 * An abstract terminal: the process-wide raw-mode and cursor-visibility
 * flags, the places in the program that call into the terminal library,
 * and a device that decides which of those calls fail.
 */
module Terminal {
  import opened Base

  /** Every place in the program that calls into the terminal library. */
  datatype CallSite =
    | EnableRawMode          // `RawMode::enable`
    | HideCursor             // `execute(Hide)` in `Tui::new`
    | QueryPosition          // `cursor::position()` in `Tui::new`
    | ReadEvent              // `event::read()` in `Tui::next_key`
    | QueueMoveTo            // `queue(MoveTo(..))` in `Tui::next_key`
    | QueueClear             // `queue(Clear(FromCursorDown))` in `Tui::next_key`
    | FlushOutput            // `flush()` in `Tui::next_key`
    | SessionDisableRawMode  // `disable_raw_mode()` in `Drop for Tui`
    | SessionShowCursor      // `execute(Show)` in `Drop for Tui`
    | GuardDisableRawMode    // `disable_raw_mode()` in `Drop for RawMode`

  /** The single error kind; it records which call failed. */
  datatype TerminalError = TerminalError(site: CallSite)

  /**
   * Which calls fail. Every site except `ReadEvent` is reached at most once
   * per operation; read failures come from the input stream, not from here.
   */
  datatype Device = Device(failing: set<CallSite>) {
    predicate Fails(site: CallSite) {
      site in failing
    }
  }

  /** The process-wide terminal state the program changes. */
  datatype Flags = Flags(rawMode: bool, cursorVisible: bool)

  /** A cursor cell as reported by `cursor::position()`: column first, then row. */
  datatype Position = Position(column: U16, row: U16)

  datatype ClearType = All | Purge | FromCursorDown | FromCursorUp | CurrentLine | UntilNewLine

  /** Commands queued on standard output. */
  datatype Command = MoveTo(column: U16, row: U16) | Clear(kind: ClearType)

  predicate DisablesRawMode(site: CallSite) {
    site == SessionDisableRawMode || site == GuardDisableRawMode
  }

  /**
   * What one call does to the flags. A failed call is taken to have had no
   * effect on the terminal.
   */
  function Step(f: Flags, dev: Device, site: CallSite): (g: Flags)
    ensures dev.Fails(site) ==> g == f
    ensures !dev.Fails(site) && site == EnableRawMode ==> g.rawMode
    ensures !dev.Fails(site) && DisablesRawMode(site) ==> !g.rawMode
    ensures !dev.Fails(site) && site == HideCursor ==> !g.cursorVisible
    ensures !dev.Fails(site) && site == SessionShowCursor ==> g.cursorVisible
    ensures site != EnableRawMode && !DisablesRawMode(site) ==> g.rawMode == f.rawMode
    ensures site != HideCursor && site != SessionShowCursor ==> g.cursorVisible == f.cursorVisible
  {
    if dev.Fails(site) then f
    else match site
      case EnableRawMode => f.(rawMode := true)
      case SessionDisableRawMode => f.(rawMode := false)
      case GuardDisableRawMode => f.(rawMode := false)
      case HideCursor => f.(cursorVisible := false)
      case SessionShowCursor => f.(cursorVisible := true)
      case _ => f
  }

  /** The flags after a sequence of calls, made in order. */
  function Replay(f: Flags, dev: Device, calls: seq<CallSite>): (g: Flags)
    decreases |calls|
  {
    if |calls| == 0 then f else Replay(Step(f, dev, calls[0]), dev, calls[1..])
  }

  /** Replaying two call sequences one after the other is replaying their concatenation. */
  lemma {:induction false} ReplayAppend(f: Flags, dev: Device, a: seq<CallSite>, b: seq<CallSite>)
    ensures Replay(f, dev, a + b) == Replay(Replay(f, dev, a), dev, b)
    decreases |a|
  {
    if |a| == 0 {
      assert a + b == b;
    } else {
      assert (a + b)[1..] == a[1..] + b;
      ReplayAppend(Step(f, dev, a[0]), dev, a[1..], b);
    }
  }

  /**
   * The failed calls among `calls`, each reported once per call: what the
   * drop handlers write on the diagnostic stream instead of returning.
   */
  function Logged(dev: Device, calls: seq<CallSite>): (r: seq<CallSite>)
    ensures |r| <= |calls|
    ensures forall s :: multiset(r)[s] == if dev.Fails(s) then multiset(calls)[s] else 0
    decreases |calls|
  {
    if |calls| == 0 then []
    else
      assert calls == [calls[0]] + calls[1..];
      (if dev.Fails(calls[0]) then [calls[0]] else []) + Logged(dev, calls[1..])
  }
}
