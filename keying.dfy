/**
 * The drill's event loop, one event at a time, as a function on the session
 * state. The state is the typed input (dots, dashes and spaces), the time the
 * Space key was last pressed if a press is open, and the number of finished
 * presses. Times are whole milliseconds supplied by the caller.
 */
module Keying {
  import opened Wrappers
  import opened Strings
  import opened MorseTable

  /** The key codes the loop tells apart; every other code is `OtherKey`. */
  datatype KeyCode = Esc | Enter | Char(ch: char) | OtherKey

  /** A key event (of any kind: press, repeat or release), or a non-key terminal event. */
  datatype Event = Key(code: KeyCode) | NonKey

  /** An event with the time at which the loop handles it. */
  datatype TimedEvent = TimedEvent(event: Event, at: nat)

  datatype SessionState = SessionState(input: string, pressStart: Option<nat>, keypressCount: nat)

  /** The state after handling one event, and whether the loop ends. */
  datatype Outcome = Outcome(state: SessionState, stop: bool)

  /** The state after a run of events, how many were consumed, and whether the loop ended. */
  datatype RunResult = RunResult(state: SessionState, consumed: nat, stopped: bool)

  /** A press shorter than this many milliseconds is a dot; any longer one is a dash. */
  const DashThresholdMs: nat := 300

  const SpaceKey: Event := Key(Char(' '))

  function Initial(): SessionState
  {
    SessionState("", None, 0)
  }

  /** Time elapsed since `start`, saturating at zero as Rust's `Instant` subtraction does. */
  function Elapsed(start: nat, now: nat): (d: nat)
    ensures start <= now ==> start + d == now
    ensures now < start ==> d == 0
  {
    if start <= now then now - start else 0
  }

  /** The symbol a press of the given length makes: the threshold itself is a dash. */
  function Classify(elapsed: nat): (r: char)
    ensures r == '.' <==> elapsed < DashThresholdMs
    ensures r == '-' <==> elapsed >= DashThresholdMs
  {
    if elapsed < DashThresholdMs then '.' else '-'
  }

  /** The number of dots and dashes in `s`. */
  function SymbolCount(s: string): (n: nat)
    ensures n <= |s|
    decreases |s|
  {
    if s == [] then 0
    else SymbolCount(s[..|s| - 1]) + (if s[|s| - 1] in Symbols then 1 else 0)
  }

  /** The loop's invariant: the input holds only dots, dashes and spaces, and one press was counted per symbol. */
  predicate Consistent(s: SessionState)
  {
    OverAlphabet(s.input, MorseChars) && s.keypressCount == SymbolCount(s.input)
  }

  /** The loop's completion test: the input and the expected code agree once both are trimmed. */
  predicate Matches(input: string, expected: string)
  {
    Trim(input) == Trim(expected)
  }

  /**
   * The state change one event makes. Space toggles the open press: the
   * first records the time, the second appends the symbol the press length
   * gives, closes the press and counts it. Enter appends a space. Anything
   * else, Esc included, changes nothing.
   */
  function Handle(s: SessionState, e: Event, now: nat): (t: SessionState)
    ensures s.input <= t.input && |t.input| <= |s.input| + 1
    ensures s.keypressCount <= t.keypressCount <= s.keypressCount + 1
  {
    match e
    case Key(Char(c)) =>
      if c != ' ' then s
      else (
        match s.pressStart
        case None => s.(pressStart := Some(now))
        case Some(start) =>
          SessionState(s.input + [Classify(Elapsed(start, now))], None, s.keypressCount + 1))
    case Key(Enter) => s.(input := s.input + " ")
    case _ => s
  }

  /** One turn of the loop: Esc ends it at once; any other event is handled, then the input is tested. */
  function Next(s: SessionState, expected: string, e: Event, now: nat): Outcome
  {
    if e == Key(Esc) then Outcome(s, true)
    else
      var t := Handle(s, e, now);
      Outcome(t, Matches(t.input, expected))
  }

  /**
   * The loop over a finite run of events: it consumes events until one of
   * them ends it, or until the run is exhausted.
   */
  function Drive(s: SessionState, expected: string, events: seq<TimedEvent>): RunResult
    decreases |events|
  {
    if events == [] then RunResult(s, 0, false)
    else
      var o := Next(s, expected, events[0].event, events[0].at);
      if o.stop then RunResult(o.state, 1, true)
      else
        var r := Drive(o.state, expected, events[1..]);
        RunResult(r.state, r.consumed + 1, r.stopped)
  }

  // ----- One event -----

  lemma {:induction false} SymbolCountAppend(s: string, c: char)
    ensures SymbolCount(s + [c]) == SymbolCount(s) + (if c in Symbols then 1 else 0)
  {
    assert (s + [c])[..|s|] == s;
  }

  lemma AppendKeepsConsistent(s: SessionState, c: char, count: nat)
    requires Consistent(s) && c in MorseChars
    requires count == s.keypressCount + (if c == ' ' then 0 else 1)
    ensures Consistent(SessionState(s.input + [c], None, count))
  {
    SymbolCountAppend(s.input, c);
    var x := s.input + [c];
    assert forall i :: 0 <= i < |x| ==> x[i] == c || x[i] == s.input[i];
  }

  lemma HandlePreservesConsistent(s: SessionState, e: Event, now: nat)
    requires Consistent(s)
    ensures Consistent(Handle(s, e, now))
  {
    match e
    case Key(Char(c)) =>
      if c == ' ' && s.pressStart.Some? {
        AppendKeepsConsistent(s, Classify(Elapsed(s.pressStart.value, now)), s.keypressCount + 1);
      }
    case Key(Enter) =>
      AppendKeepsConsistent(s, ' ', s.keypressCount);
    case _ =>
  }

  /** Every event keeps the invariant: each counted press put exactly one symbol in the input. */
  lemma NextPreservesConsistent(s: SessionState, expected: string, e: Event, now: nat)
    requires Consistent(s)
    ensures Consistent(Next(s, expected, e, now).state)
  {
    if e != Key(Esc) {
      HandlePreservesConsistent(s, e, now);
    }
  }

  /**
   * Space toggles the press. With no press open it records the time and
   * leaves input and count alone; with one open it appends exactly one
   * symbol, classified from the elapsed time, closes the press and adds one
   * to the count.
   */
  lemma SpaceToggles(s: SessionState, now: nat)
    ensures var t := Handle(s, SpaceKey, now);
      if s.pressStart.None? then
        t == SessionState(s.input, Some(now), s.keypressCount)
      else
        t.pressStart == None && t.keypressCount == s.keypressCount + 1 &&
        t.input == s.input + [Classify(Elapsed(s.pressStart.value, now))]
  {
  }

  /** A press released before 300 ms gives a dot; at 300 ms or later, a dash. */
  lemma PressLength(s: SessionState, start: nat, now: nat)
    requires s.pressStart == Some(start) && start <= now
    ensures now - start < 300 ==> Handle(s, SpaceKey, now).input == s.input + "."
    ensures now - start >= 300 ==> Handle(s, SpaceKey, now).input == s.input + "-"
  {
  }

  /** Enter appends one space and changes nothing else. */
  lemma EnterAppendsSpace(s: SessionState, now: nat)
    ensures Handle(s, Key(Enter), now) == s.(input := s.input + " ")
  {
  }

  /** Keys other than Space, Enter and Esc, and non-key events, change nothing. */
  lemma OtherEventsIgnored(s: SessionState, expected: string, e: Event, now: nat)
    requires e !in {SpaceKey, Key(Enter), Key(Esc)}
    ensures Next(s, expected, e, now).state == s
  {
  }

  /** Esc ends the loop at once and without the match test; any other event ends it exactly on a match. */
  lemma StopsOnEscOrMatch(s: SessionState, expected: string, e: Event, now: nat)
    ensures e == Key(Esc) ==> Next(s, expected, e, now) == Outcome(s, true)
    ensures e != Key(Esc) ==>
      (Next(s, expected, e, now).stop <==> Matches(Next(s, expected, e, now).state.input, expected))
  {
  }

  /**
   * No Enter is needed after the last letter: a trailing space never turns a
   * match into a mismatch or back, so the match is reached on the last symbol.
   */
  lemma TrailingSpaceIrrelevant(input: string, expected: string)
    ensures Matches(input + " ", expected) <==> Matches(input, expected)
  {
    TrimAppendSpace(input);
  }

  /** With an expected code that trims to nothing, the very first event ends the loop. */
  lemma BlankTargetStopsAtOnce(expected: string, e: Event, now: nat)
    requires forall i :: 0 <= i < |expected| ==> expected[i] == ' '
    ensures Next(Initial(), expected, e, now).stop
  {
    var t := Handle(Initial(), e, now);
    assert forall i :: 0 <= i < |t.input| ==> t.input[i] == ' ';
    TrimSpec(t.input);
    TrimSpec(expected);
  }

  // ----- A run of events -----

  /** A whole run keeps the invariant. */
  lemma {:induction false} DrivePreservesConsistent(s: SessionState, expected: string, events: seq<TimedEvent>)
    requires Consistent(s)
    ensures Consistent(Drive(s, expected, events).state)
    decreases |events|
  {
    if events != [] {
      NextPreservesConsistent(s, expected, events[0].event, events[0].at);
      var o := Next(s, expected, events[0].event, events[0].at);
      if !o.stop {
        DrivePreservesConsistent(o.state, expected, events[1..]);
      }
    }
  }

  /**
   * A run consumes every event unless it ends the loop; it ends only on the
   * event it consumed last, and only if that event is Esc or leaves a match;
   * the input it leaves extends the input it started from, and the count
   * never drops.
   */
  lemma {:induction false} DriveEndsOnEscOrMatch(s: SessionState, expected: string, events: seq<TimedEvent>)
    ensures var r := Drive(s, expected, events);
      && r.consumed <= |events|
      && (!r.stopped ==> r.consumed == |events|)
      && (r.stopped ==>
            1 <= r.consumed && (events[r.consumed - 1].event == Key(Esc) || Matches(r.state.input, expected)))
      && s.input <= r.state.input
      && s.keypressCount <= r.state.keypressCount
    decreases |events|
  {
    if events != [] {
      var o := Next(s, expected, events[0].event, events[0].at);
      if !o.stop {
        DriveEndsOnEscOrMatch(o.state, expected, events[1..]);
        var r := Drive(o.state, expected, events[1..]);
        if r.stopped {
          assert events[1..][r.consumed - 1] == events[r.consumed];
        }
      }
    }
  }

  /**
   * A run stops at the first event that ends the loop: every event it
   * consumed before its last one, and its last one too if the loop did not
   * end, was not Esc and left an input that does not match.
   */
  lemma {:induction false} DriveStopsAtFirst(s: SessionState, expected: string, events: seq<TimedEvent>)
    ensures var r := Drive(s, expected, events);
      r.consumed <= |events| &&
      forall k :: 0 <= k < r.consumed - (if r.stopped then 1 else 0) ==>
        events[k].event != Key(Esc) && !Matches(Drive(s, expected, events[..k + 1]).state.input, expected)
    decreases |events|
  {
    DriveEndsOnEscOrMatch(s, expected, events);
    if events != [] {
      var o := Next(s, expected, events[0].event, events[0].at);
      if !o.stop {
        var rest := events[1..];
        DriveStopsAtFirst(o.state, expected, rest);
        var r := Drive(s, expected, events);
        var r' := Drive(o.state, expected, rest);
        assert r.consumed == r'.consumed + 1 && r.stopped == r'.stopped;
        forall k | 0 <= k < r.consumed - (if r.stopped then 1 else 0)
          ensures events[k].event != Key(Esc) && !Matches(Drive(s, expected, events[..k + 1]).state.input, expected)
        {
          PrefixAfterFirst(s, expected, events, k);
          if k > 0 {
            assert rest[k - 1] == events[k];
          }
        }
      }
    }
  }

  /** Running a prefix of a run whose first event does not end the loop: that event, then the rest of the prefix. */
  lemma PrefixAfterFirst(s: SessionState, expected: string, events: seq<TimedEvent>, k: nat)
    requires k < |events|
    requires !Next(s, expected, events[0].event, events[0].at).stop
    ensures var o := Next(s, expected, events[0].event, events[0].at);
      && events[0].event != Key(Esc)
      && Drive(s, expected, events[..k + 1]).state == Drive(o.state, expected, events[1..][..k]).state
      && (k == 0 ==> !Matches(o.state.input, expected))
  {
    var p := events[..k + 1];
    assert p[0] == events[0];
    assert p[1..] == events[1..][..k];
  }

  /** Running two runs back to back is one run over their concatenation, when the first does not end the loop. */
  lemma {:induction false} DriveAppend(s: SessionState, expected: string, a: seq<TimedEvent>, b: seq<TimedEvent>)
    requires !Drive(s, expected, a).stopped
    ensures var r := Drive(Drive(s, expected, a).state, expected, b);
      Drive(s, expected, a + b) == RunResult(r.state, r.consumed + |a|, r.stopped)
    decreases |a|
  {
    if a == [] {
      assert a + b == b;
    } else {
      var o := Next(s, expected, a[0].event, a[0].at);
      assert (a + b)[0] == a[0] && (a + b)[1..] == a[1..] + b;
      DriveAppend(o.state, expected, a[1..], b);
    }
  }
}
