# single-key-tui, modelled in Dafny

`single-key-tui` is a small Rust crate. It puts the terminal into raw mode,
hides the cursor, and reads one key at a time. `Tui::new(quit_on)` starts a
session. `Tui::next_key()` blocks until an event arrives that ends the call:

- a quit key yields `None`;
- Control+C or Control+D yields `None`;
- any other unmodified character yields `Some(c)`.

Every other event is skipped. Before it returns, `next_key` moves the cursor
back to the cell captured by `new` and clears everything below it. Dropping
the `Tui` turns raw mode off and shows the cursor. The `RawMode` guard field
then turns raw mode off a second time.

The model has five modules:

- `Base` (base.dfy): Rust's `Option`, `Result` and `u16`.
- `Events` (events.dfy): crossterm's events, key codes and modifiers. The
  modifier bit set is a `set<Modifier>`, so `KeyModifiers::NONE` is `{}` and
  `KeyModifiers::CONTROL` is `{Control}`.
- `Terminal` (terminal.dfy): an abstract terminal. It has the two
  process-wide flags (raw mode, cursor visible), one `CallSite` per place the
  crate calls into crossterm, and a `Device` that says which of those calls
  fail. `Replay` folds a sequence of calls over the flags.
- `KeyDispatch` (dispatch.dfy): the match of `next_key` (`Classify`) and its
  read loop over a finite stream of read results. `ReadLoop` is the recursive
  reference definition. `ReadUntilDecision` is the loop as written. Both are
  proved to meet `FirstDecisive`, which holds for only one end of the loop.
- `Session` (session.dfy): `Tui::new`, `next_key` with its cleanup block, the
  two `Drop` impls, and a whole session from `new` to drop.

Two behaviours of the code are worth stating explicitly:

- If hiding the cursor (or querying its position) fails after raw mode was
  enabled, the code does turn raw mode off again. The `?` drops the local
  `RawMode` guard, and the guard's drop disables raw mode (`Session.New`).
  A cursor hidden before the position query failed stays hidden.
- Dropping a session calls `disable_raw_mode` twice, not once: once in
  `Drop for Tui` and once in the guard field's drop (`Session.Drop`).

## Model

| member | source | states |
|---|---|---|
| KeyDispatch.AnyEq | src/lib.rs:58 | the `any(|q| q == c)` scan over the quit keys is true exactly when `c` is one of them |
| KeyDispatch.Classify | src/lib.rs:51-70 | an event stops the loop with `None` exactly when it is an unmodified quit key or Control+C/D (whatever the quit keys are); it stops with `Some(c)` exactly when it is the unmodified character `c` and `c` is not a quit key; it is skipped exactly when it is neither an unmodified character nor Control+C/D |
| KeyDispatch.AnswerIsNeverQuitKey | src/lib.rs:54-68 | an answered character is never a quit key, and it came from a `Char` key with no modifier (of any event kind) |
| KeyDispatch.EmptyQuitSet | src/lib.rs:54-63 | with no quit keys, only Control+C/D ends the call without an answer |
| KeyDispatch.OnlyMembershipMatters | src/lib.rs:58 | two quit-key lists with the same members classify every event alike: order and repetition do not matter |
| KeyDispatch.OtherModifiersSkip | src/lib.rs:69 | a key with any modifier set other than exactly none or exactly Control (Shift, Alt, Control+Shift, ...) is skipped |
| KeyDispatch.FirstDecisiveUnique | src/lib.rs:49-72 | at most one end of the read loop is consistent with a given stream |
| KeyDispatch.ReadLoop | src/lib.rs:49-72 | the loop ends at the first input that is a read error or an event that is not skipped, and every input before it was a skipped event; it keeps waiting exactly when every input is a skipped event |
| KeyDispatch.ReadUntilDecision | src/lib.rs:49-72 | the `loop` as written (read, classify, `break` or read again) ends where the first decisive input is |
| KeyDispatch.LoopMatchesReadLoop | src/lib.rs:49-72 | the loop as written and the recursive definition end the same way on every stream |
| KeyDispatch.SkippedPrefix | src/lib.rs:49-72 | skipped events in front of a stream only add to the count of consumed inputs; the rest of the stream decides the outcome |
| Terminal.Step | src/lib.rs:14-25 | a failed call leaves the flags alone; a successful enable turns raw mode on, a disable turns it off, hide and show set cursor visibility; no other call touches either flag |
| Terminal.Logged | src/lib.rs:81-89 | a drop handler reports each of its failed calls on the diagnostic stream exactly as many times as it made it, and reports nothing else |
| Session.EnableRaw | src/lib.rs:14-16 | `RawMode::enable` returns the guard exactly when enabling succeeds, and then raw mode is on; on failure the flags are unchanged |
| Session.DropRawMode | src/lib.rs:19-25 | the guard's drop makes one disable call; when it succeeds raw mode is off; the cursor is never touched; a failure is only logged |
| Session.New | src/lib.rs:35-43 | construction succeeds exactly when enable, hide and position all succeed, and then raw mode is on, the cursor hidden and the captured cell stored; the error is the first failing step; a failed enable changes nothing; a later failure turns raw mode off again, and leaves it on exactly when that disable fails; a failed hide leaves the cursor as it was; a failed position query leaves the cursor hidden; a failure of the guard's disable on the way out is logged, not returned |
| Session.Cleanup | src/lib.rs:73-76 | the cleanup queues a prefix of `MoveTo(position)` then `Clear(FromCursorDown)`; it flushes and reports no error exactly when none of its three steps fails; otherwise the error names the first failing step, and only the steps before it took effect |
| Session.NextKey | src/lib.rs:45-78 | `next_key` waits exactly when every input is a skipped event, and then it has consumed them all; a read error is returned with no cleanup command queued and nothing flushed; any returned error comes with nothing flushed; a returned answer comes with exactly `MoveTo(position)` then `Clear(FromCursorDown)` queued and flushed; whatever it queues is a prefix of those two commands, so it always targets the cell captured by `new` |
| Session.NextKeyDecidedByFirstDecisive | src/lib.rs:49-72 | a call that returns was decided by the first input that is not a skipped event, and every input before it was skipped; a returned answer is exactly that event's classification |
| Session.CleanupErrorReplacesAnswer | src/lib.rs:73-77 | once an event is accepted, the answer is returned exactly when no cleanup step fails; otherwise the error of the first failing step is returned instead, only the commands before it were queued, and nothing was flushed |
| Session.SkippedEventsDoNotMatter | src/lib.rs:49-76 | skipped events before the decisive one change only the count of consumed inputs, not the answer or the cleanup commands |
| Session.Drop | src/lib.rs:81-89 | dropping a session makes two disable calls (`Drop for Tui` first, the guard last); raw mode ends off unless both fail; the cursor ends visible unless showing it fails; a failed call leaves its flag as it was; each failure is logged once and none is returned |
| Session.SessionLifecycle | src/lib.rs:35-89 | after a successful `new`, raw mode is on and the cursor hidden; after the drop, raw mode is on exactly when both disable calls failed, and the cursor is visible exactly when showing it succeeded (with a disable modelled as switching raw mode off, see below) |
| Session.CleanSessionRestoresTerminal | src/lib.rs:35-89 | when no call fails, a session ends with raw mode off and the cursor visible (with a disable modelled as switching raw mode off, see below) |
| Session.AnswerThenQuit | src/lib.rs:54-68 | with quit key `q`, the stream `x`, `q` answers `x` on the first call and ends without an answer on the second |
| Session.ControlAIsSkipped | src/lib.rs:59-69 | with no quit keys, Control+A is skipped and the Control+C after it ends the call without an answer |

## Left out

- Real terminal I/O is left out: crossterm's `event::read`, `enable_raw_mode`/`disable_raw_mode`, `execute`/`queue`, `cursor::position` and stdout. Reads are a finite sequence of `Input` values. Other calls are `CallSite`s whose success comes from a `Device`. `new` takes the cursor cell as a parameter.
- Blocking is left out. When every input in the stream is skipped, `next_key` is modelled as `Waiting`; the real call would block for more input.
- Terminal.Step: a failed call is modelled as having had no effect on the terminal. This holds for `enable_raw_mode` and `disable_raw_mode`. It is not guaranteed for `execute(Hide)` and `execute(Show)`: if their flush fails, the escape sequence stays in stdout's buffer and can still reach the terminal at a later flush (the caller's next print, `next_key`'s flush, or the flush at exit). The claims that a failed hide or show leaves the cursor as it was (`Session.New`, `Session.Drop`, `Session.SessionLifecycle`) are about this abstraction, not about what the terminal finally shows.
- Session.SessionLifecycle: a successful `disable_raw_mode` is modelled as switching raw mode off. The terminal library instead restores the mode it saved when raw mode was enabled, and a second disable after a successful first one does nothing. So a terminal that was already raw before `new` stays raw after the drop; the lemma's "raw mode off" holds for a terminal that was in normal mode before `new`. The library's saved mode is not part of this model.
- Session.CleanSessionRestoresTerminal: the same abstraction. With no failures, raw mode ends off in the model from any earlier state, but the real terminal returns to whatever mode it had before `new`.
- crossterm's `io::Error` payload is left out. A `TerminalError` records only which call failed.
- The text of the diagnostics written by `eprintln!` in both `Drop` impls is left out. The model records which failures are logged, not the message. (Line 87 reuses the raw-mode message for a failure to show the cursor.)
- The generic `I: IntoIterator<Item = char> + Copy` parameter is a `seq<char>`.
- `KeyEvent`'s `state` field is left out. Its `kind` is kept only to show that the match ignores it. Key codes other than `Char` are listed but treated alike.
- The flags `next_key` leaves are not modelled as a separate step. It borrows the session and makes only read, queue and flush calls, which `Terminal.Step` shows leave both flags unchanged.
- examples/show_last_key.rs is an interactive driver with no logic of its own.
- Concurrent or nested sessions are left out; the crate does not support them.
