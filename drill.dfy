/**
 * The drill's loop as it runs: the session's fields are updated in place by
 * each event, and a driver feeds events until the loop ends. Each method is
 * proved against the one-event function `Next` and the run function `Drive`.
 */
module Drill {
  import opened Wrappers
  import opened Strings
  import opened Keying

  class Session {
    var input: string
    var pressStart: Option<nat>
    var keypressCount: nat
    /** The code the user is asked to type; fixed for the session. */
    const expected: string

    /** The fields as a `SessionState` value. */
    function State(): SessionState
      reads this
    {
      SessionState(input, pressStart, keypressCount)
    }

    constructor (expected: string)
      ensures State() == Initial() && Consistent(State())
      ensures this.expected == expected
    {
      this.expected := expected;
      input := "";
      pressStart := None;
      keypressCount := 0;
    }

    /** Handles one event at time `now` and reports whether the loop ends. */
    method Step(e: Event, now: nat) returns (stop: bool)
      modifies this
      ensures Outcome(State(), stop) == Next(old(State()), expected, e, now)
      ensures old(Consistent(State())) ==> Consistent(State())
    {
      ghost var before := State();
      match e {
        case Key(Esc) =>
          return true;
        case Key(Char(c)) =>
          if c == ' ' {
            match pressStart {
              case None =>
                pressStart := Some(now);
              case Some(start) =>
                var duration := Elapsed(start, now);
                if duration < DashThresholdMs {
                  input := input + ".";
                } else {
                  input := input + "-";
                }
                pressStart := None;
                keypressCount := keypressCount + 1;
            }
          }
        case Key(Enter) =>
          input := input + " ";
        case _ =>
      }
      assert State() == Handle(before, e, now);
      stop := Trim(input) == Trim(expected);
      assert Outcome(State(), stop) == Next(before, expected, e, now);
      if Consistent(before) {
        NextPreservesConsistent(before, expected, e, now);
      }
    }

    /**
     * Feeds the events in order until one ends the loop or they run out;
     * returns how many were consumed and whether the loop ended.
     */
    method Run(events: seq<TimedEvent>) returns (consumed: nat, stopped: bool)
      modifies this
      ensures RunResult(State(), consumed, stopped) == Drive(old(State()), expected, events)
      ensures old(Consistent(State())) ==> Consistent(State())
    {
      ghost var start := State();
      consumed, stopped := 0, false;
      while consumed < |events| && !stopped
        invariant consumed <= |events|
        invariant !stopped ==>
          var r := Drive(State(), expected, events[consumed..]);
          Drive(start, expected, events) == RunResult(r.state, r.consumed + consumed, r.stopped)
        invariant stopped ==> Drive(start, expected, events) == RunResult(State(), consumed, true)
        decreases |events| - consumed, !stopped
      {
        var next := events[consumed];
        assert events[consumed..][0] == next;
        assert events[consumed..][1..] == events[consumed + 1..];
        stopped := Step(next.event, next.at);
        consumed := consumed + 1;
      }
      if Consistent(start) {
        DrivePreservesConsistent(start, expected, events);
      }
    }
  }
}
