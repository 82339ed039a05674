/**
 * The key-dispatch rule of `Tui::next_key`: how one event is classified,
 * and how the read loop picks the first event that ends it.
 */
module KeyDispatch {
  import opened Base
  import opened Events
  import opened Terminal

  /** `quit.into_iter().any(|q| q == c)`: a left-to-right scan of the quit keys. */
  function AnyEq(quit: seq<char>, c: char): (r: bool)
    ensures r <==> c in quit
    decreases |quit|
  {
    if |quit| == 0 then false else quit[0] == c || AnyEq(quit[1..], c)
  }

  /** What one event makes the loop do: stop with an answer, or read on. */
  datatype Decision = Stop(answer: Option<char>) | Skip

  /** A character key with no modifier held (the event's kind does not matter). */
  predicate IsPlainChar(ev: Event) {
    ev.Key? && ev.key.code.Char? && ev.key.modifiers == NONE
  }

  /** An unmodified key whose character is one of the quit keys. */
  predicate IsQuitKey(quit: seq<char>, ev: Event) {
    IsPlainChar(ev) && ev.key.code.c in quit
  }

  /** Control+C or Control+D, with Control the only modifier held. */
  predicate IsInterrupt(ev: Event) {
    ev.Key? && ev.key.modifiers == CONTROL && ev.key.code in {Char('c'), Char('d')}
  }

  /**
   * The match in `next_key`, arm by arm: a quit key stops with no answer,
   * then Control+C/D stops with no answer, then any other unmodified
   * character is the answer; everything else is skipped.
   */
  function Classify(quit: seq<char>, ev: Event): (d: Decision)
    ensures d == Stop(None) <==> IsQuitKey(quit, ev) || IsInterrupt(ev)
    ensures d.Stop? && d.answer.Some? <==> IsPlainChar(ev) && ev.key.code.c !in quit
    ensures d.Stop? && d.answer.Some? ==> IsPlainChar(ev) && d.answer.value == ev.key.code.c
    ensures d.Skip? <==> !IsPlainChar(ev) && !IsInterrupt(ev)
  {
    match ev
    case Key(KeyEvent(Char(c), modifiers, _)) =>
      if modifiers == NONE && AnyEq(quit, c) then Stop(None)
      else if (c == 'c' || c == 'd') && modifiers == CONTROL then Stop(None)
      else if modifiers == NONE then Stop(Some(c))
      else Skip
    case _ => Skip
  }

  /** A character is never handed back when it is a quit key, and never with a modifier. */
  lemma AnswerIsNeverQuitKey(quit: seq<char>, ev: Event, c: char)
    requires Classify(quit, ev) == Stop(Some(c))
    ensures c !in quit
    ensures ev == Key(KeyEvent(Char(c), NONE, ev.key.kind))
  {
  }

  /** With no quit keys only Control+C/D ends the loop without an answer. */
  lemma EmptyQuitSet(ev: Event)
    ensures Classify([], ev) == Stop(None) <==> IsInterrupt(ev)
  {
  }

  /**
   * Only membership in the quit keys matters: their order, repetitions and
   * the rest of the set have no effect, and Control+C/D wins over any of them.
   */
  lemma OnlyMembershipMatters(quit1: seq<char>, quit2: seq<char>, ev: Event)
    requires forall c :: c in quit1 <==> c in quit2
    ensures Classify(quit1, ev) == Classify(quit2, ev)
  {
  }

  /** Any modifier set other than exactly none or exactly Control is skipped. */
  lemma OtherModifiersSkip(quit: seq<char>, k: KeyEvent)
    requires k.modifiers != NONE && k.modifiers != CONTROL
    ensures Classify(quit, Key(k)) == Skip
  {
  }

  /** One result of `event::read()`. */
  datatype Input = Received(ev: Event) | ReadFailed

  /** Where the read loop ends after `consumed` inputs, or that it is still waiting. */
  datatype LoopEnd =
    | Accepted(answer: Option<char>, consumed: nat)
    | Failed(consumed: nat)
    | Blocked

  /** Every input was delivered and every event was skipped. */
  predicate AllSkipped(quit: seq<char>, inputs: seq<Input>) {
    forall i :: 0 <= i < |inputs| ==> inputs[i].Received? && Classify(quit, inputs[i].ev).Skip?
  }

  /**
   * `e` is where the loop over `inputs` ends: the first input that is not a
   * skipped event decides it, or, when there is none, the loop is still blocked.
   */
  ghost predicate FirstDecisive(quit: seq<char>, inputs: seq<Input>, e: LoopEnd) {
    match e
    case Accepted(answer, n) =>
      && 1 <= n <= |inputs|
      && AllSkipped(quit, inputs[..n - 1])
      && inputs[n - 1].Received?
      && Classify(quit, inputs[n - 1].ev) == Stop(answer)
    case Failed(n) =>
      && 1 <= n <= |inputs|
      && AllSkipped(quit, inputs[..n - 1])
      && inputs[n - 1] == ReadFailed
    case Blocked =>
      AllSkipped(quit, inputs)
  }

  /** At most one way for the loop to end satisfies `FirstDecisive`. */
  lemma FirstDecisiveUnique(quit: seq<char>, inputs: seq<Input>, e1: LoopEnd, e2: LoopEnd)
    requires FirstDecisive(quit, inputs, e1) && FirstDecisive(quit, inputs, e2)
    ensures e1 == e2
  {
  }

  /** The same end, reached `k` inputs later. */
  function Shift(e: LoopEnd, k: nat): (later: LoopEnd) {
    match e
    case Accepted(a, n) => Accepted(a, n + k)
    case Failed(n) => Failed(n + k)
    case Blocked => Blocked
  }

  /** The `loop` of `next_key` over a finite input stream, as a recursive function. */
  function ReadLoop(quit: seq<char>, inputs: seq<Input>): (e: LoopEnd)
    ensures FirstDecisive(quit, inputs, e)
    decreases |inputs|
  {
    if |inputs| == 0 then Blocked
    else match inputs[0]
      case ReadFailed => Failed(1)
      case Received(ev) =>
        match Classify(quit, ev)
        case Stop(answer) => Accepted(answer, 1)
        case Skip =>
          var e := ReadLoop(quit, inputs[1..]);
          assert forall i :: 1 <= i <= |inputs| ==> inputs[..i] == [inputs[0]] + inputs[1..][..i - 1];
          Shift(e, 1)
  }

  /** Skipped events in front of the stream only shift where the loop ends. */
  lemma {:induction false} SkippedPrefix(quit: seq<char>, skipped: seq<Input>, rest: seq<Input>)
    requires AllSkipped(quit, skipped)
    ensures ReadLoop(quit, skipped + rest) == Shift(ReadLoop(quit, rest), |skipped|)
    decreases |skipped|
  {
    if |skipped| > 0 {
      assert (skipped + rest)[1..] == skipped[1..] + rest;
      SkippedPrefix(quit, skipped[1..], rest);
    } else {
      assert skipped + rest == rest;
    }
  }

  /** The `loop` of `next_key` as written: read, classify, break on the first decision. */
  method ReadUntilDecision(quit: seq<char>, inputs: seq<Input>) returns (e: LoopEnd)
    ensures FirstDecisive(quit, inputs, e)
  {
    var i := 0;
    while i < |inputs|
      invariant 0 <= i <= |inputs|
      invariant AllSkipped(quit, inputs[..i])
    {
      match inputs[i] {
        case ReadFailed =>
          return Failed(i + 1);
        case Received(ev) =>
          var d := Classify(quit, ev);
          if d.Stop? {
            return Accepted(d.answer, i + 1);
          }
      }
      assert inputs[..i + 1] == inputs[..i] + [inputs[i]];
      i := i + 1;
    }
    assert inputs[..i] == inputs;
    e := Blocked;
  }

  /** The loop as written and the recursive function agree on every stream. */
  lemma LoopMatchesReadLoop(quit: seq<char>, inputs: seq<Input>, e: LoopEnd)
    requires FirstDecisive(quit, inputs, e)
    ensures e == ReadLoop(quit, inputs)
  {
    FirstDecisiveUnique(quit, inputs, e, ReadLoop(quit, inputs));
  }
}
