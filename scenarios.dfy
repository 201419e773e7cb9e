/**
 * Complete sessions keyed by hand: the phrase "SOS" keyed to the end with no
 * Enter after the last letter, and a session cancelled with Esc while a
 * press is open.
 */
module Scenarios {
  import opened Wrappers
  import opened Strings
  import opened MorseTable
  import opened Encoder
  import opened Keying
  import opened Drill

  /** How long the user holds Space for a symbol: well under the threshold for a dot, well over it for a dash. */
  function Hold(symbol: char): nat
  {
    if symbol == '.' then 100 else 400
  }

  /** The two Space events that key one symbol: the press at `t` and the release `Hold` later. */
  function Symbol(symbol: char, t: nat): seq<TimedEvent>
  {
    [TimedEvent(SpaceKey, t), TimedEvent(SpaceKey, t + Hold(symbol))]
  }

  /** The six Space events that key a letter of three equal symbols, one symbol a second. */
  function Letter(symbol: char, t: nat): seq<TimedEvent>
  {
    Symbol(symbol, t) + Symbol(symbol, t + 1000) + Symbol(symbol, t + 2000)
  }

  /**
   * Keying one symbol from a state with no open press appends that symbol
   * and counts the press; the loop then ends exactly if the input now
   * matches, and otherwise carries on with the events that follow.
   */
  lemma KeyingSymbol(s: SessionState, expected: string, c: char, t: nat, tail: seq<TimedEvent>)
    requires s.pressStart.None? && c in Symbols
    requires !Matches(s.input, expected)
    ensures var s2 := SessionState(s.input + [c], None, s.keypressCount + 1);
      var r := Drive(s2, expected, tail);
      Drive(s, expected, Symbol(c, t) + tail) ==
        if Matches(s2.input, expected) then RunResult(s2, 2, true)
        else RunResult(r.state, r.consumed + 2, r.stopped)
  {
    var events := Symbol(c, t) + tail;
    var s1 := s.(pressStart := Some(t));
    var s2 := SessionState(s.input + [c], None, s.keypressCount + 1);
    assert Classify(Elapsed(t, t + Hold(c))) == c;
    assert Handle(s1, SpaceKey, t + Hold(c)) == s2;
    var stop := Matches(s2.input, expected);
    assert Next(s1, expected, SpaceKey, t + Hold(c)) == Outcome(s2, stop);
    assert events[1..] == [TimedEvent(SpaceKey, t + Hold(c))] + tail;
    assert ([TimedEvent(SpaceKey, t + Hold(c))] + tail)[1..] == tail;
    var r := Drive(s2, expected, tail);
    assert Drive(s1, expected, events[1..]) ==
      if stop then RunResult(s2, 1, true) else RunResult(r.state, r.consumed + 1, r.stopped);
    assert Handle(s, SpaceKey, t) == s1;
    assert Next(s, expected, SpaceKey, t) == Outcome(s1, false);
  }

  /** Enter appends a space; the loop then ends exactly if the input now matches. */
  lemma KeyingEnter(s: SessionState, expected: string, t: nat, tail: seq<TimedEvent>)
    ensures var s2 := s.(input := s.input + " ");
      var r := Drive(s2, expected, tail);
      Drive(s, expected, [TimedEvent(Key(Enter), t)] + tail) ==
        if Matches(s2.input, expected) then RunResult(s2, 1, true)
        else RunResult(r.state, r.consumed + 1, r.stopped)
  {
    assert ([TimedEvent(Key(Enter), t)] + tail)[1..] == tail;
  }

  /** Input shorter than the trimmed expected code cannot match it. */
  lemma ShorterNeverMatches(input: string, expected: string)
    requires |input| < |Trim(expected)|
    ensures !Matches(input, expected)
  {
  }

  /** The target "SOS" encodes as three dots, three dashes and three dots. */
  lemma SosCode()
    ensures ExpectedMorse("SOS") == "... --- ..."
  {
    assert Upper("SOS") == "SOS";
    CodesOfLetters("SOS");
    assert Codes("SOS") == ["...", "---", "..."];
  }

  lemma HelloLetters()
    ensures Lookup('H') == Some("....") && Lookup('E') == Some(".") && Lookup('L') == Some(".-..") && Lookup('O') == Some("---")
  {
  }

  lemma WorldLetters()
    ensures Lookup('W') == Some(".--") && Lookup('O') == Some("---") && Lookup('R') == Some(".-.")
    ensures Lookup('L') == Some(".-..") && Lookup('D') == Some("-..")
  {
  }

  lemma HelloCodes()
    ensures Codes("HELLO") == ["....", ".", ".-..", ".-..", "---"]
  {
    HelloLetters();
    CodesCons('O', "");
    CodesCons('L', "O");
    CodesCons('L', "LO");
    CodesCons('E', "LLO");
    CodesCons('H', "ELLO");
  }

  lemma WorldCodes()
    ensures Codes("WORLD") == [".--", "---", ".-.", ".-..", "-.."]
  {
    WorldLetters();
    CodesCons('D', "");
    CodesCons('L', "D");
    CodesCons('R', "LD");
    CodesCons('O', "RLD");
    CodesCons('W', "ORLD");
  }

  lemma HelloJoin()
    ensures Join(["....", ".", ".-..", ".-..", "---"]) == ".... . .-.. .-.. ---"
  {
  }

  lemma WorldJoin()
    ensures Join([".--", "---", ".-.", ".-..", "-.."]) == ".-- --- .-. .-.. -.."
  {
    assert Join([".-..", "-.."]) == ".-.. -..";
    assert Join([".-.", ".-..", "-.."]) == ".-. .-.. -..";
  }

  lemma HelloCode()
    ensures ExpectedMorse("HELLO") == ".... . .-.. .-.. ---"
  {
    UpperOfCapitals("HELLO");
    HelloCodes();
    HelloJoin();
  }

  lemma WorldCode()
    ensures ExpectedMorse("WORLD") == ".-- --- .-. .-.. -.."
  {
    UpperOfCapitals("WORLD");
    WorldCodes();
    WorldJoin();
  }

  /** The phrase the drill sets: the gap between its two words is three spaces. */
  lemma HelloWorldCode()
    ensures ExpectedMorse("HELLO WORLD") == ".... . .-.. .-.. ---   .-- --- .-. .-.. -.."
  {
    UpperOfCapitals("HELLO");
    UpperOfCapitals("WORLD");
    HelloCodes();
    WorldCodes();
    WordGap("HELLO", "WORLD");
    HelloCode();
    WorldCode();
    HelloWorldText();
  }

  lemma HelloWorldText()
    ensures "HELLO" + " " + "WORLD" == "HELLO WORLD"
    ensures ".... . .-.. .-.. ---" + "   " + ".-- --- .-. .-.. -.." == ".... . .-.. .-.. ---   .-- --- .-. .-.. -.."
  {
  }

  const Sos: string := "... --- ..."

  /** Three quick presses, Enter, three long presses, Enter, three quick presses, one symbol a second. */
  function SosEvents(): seq<TimedEvent>
  {
    Letter('.', 0) + [TimedEvent(Key(Enter), 3000)] + Letter('-', 4000) + [TimedEvent(Key(Enter), 7000)] + Letter('.', 8000)
  }

  /** Keying one letter of three equal symbols, as in S and O. */
  lemma KeyingThree(s: SessionState, expected: string, c: char, t: nat, tail: seq<TimedEvent>)
    requires s.pressStart.None? && c in Symbols
    requires !Matches(s.input, expected) && !Matches(s.input + [c], expected) && !Matches(s.input + [c, c], expected)
    ensures var s3 := SessionState(s.input + [c, c, c], None, s.keypressCount + 3);
      var r := Drive(s3, expected, tail);
      Drive(s, expected, Letter(c, t) + tail) ==
        if Matches(s3.input, expected) then RunResult(s3, 6, true)
        else RunResult(r.state, r.consumed + 6, r.stopped)
  {
    var s1 := SessionState(s.input + [c], None, s.keypressCount + 1);
    var s2 := SessionState(s.input + [c, c], None, s.keypressCount + 2);
    var s3 := SessionState(s.input + [c, c, c], None, s.keypressCount + 3);
    assert s1.input + [c] == s2.input && s2.input + [c] == s3.input;
    assert Letter(c, t) + tail == Symbol(c, t) + (Symbol(c, t + 1000) + (Symbol(c, t + 2000) + tail));
    KeyingSymbol(s2, expected, c, t + 2000, tail);
    KeyingSymbol(s1, expected, c, t + 1000, Symbol(c, t + 2000) + tail);
    KeyingSymbol(s, expected, c, t, Symbol(c, t + 1000) + (Symbol(c, t + 2000) + tail));
  }

  // The "SOS" session, taken from its last letter back to its first, against
  // any expected code that trims to three dots, three dashes and three dots.

  lemma SosLastLetter(e: string)
    requires Trim(e) == Sos
    ensures Drive(SessionState("... --- ", None, 6), e, Letter('.', 8000)) == RunResult(SessionState(Sos, None, 9), 6, true)
  {
    TrimSpec(Sos);
    ShorterNeverMatches("... --- ", e);
    ShorterNeverMatches("... --- .", e);
    ShorterNeverMatches("... --- ..", e);
    assert "... --- " + ['.'] == "... --- ." && "... --- " + ['.', '.'] == "... --- ..";
    assert "... --- " + ['.', '.', '.'] == Sos;
    assert Letter('.', 8000) == Letter('.', 8000) + [];
    KeyingThree(SessionState("... --- ", None, 6), e, '.', 8000, []);
  }

  lemma SosSecondEnter(e: string)
    requires Trim(e) == Sos
    ensures Drive(SessionState("... ---", None, 6), e, [TimedEvent(Key(Enter), 7000)] + Letter('.', 8000)) ==
      RunResult(SessionState(Sos, None, 9), 7, true)
  {
    SosLastLetter(e);
    ShorterNeverMatches("... --- ", e);
    assert "... ---" + " " == "... --- ";
    KeyingEnter(SessionState("... ---", None, 6), e, 7000, Letter('.', 8000));
  }

  lemma SosSecondLetter(e: string)
    requires Trim(e) == Sos
    ensures Drive(SessionState("... ", None, 3), e,
                  Letter('-', 4000) + ([TimedEvent(Key(Enter), 7000)] + Letter('.', 8000))) ==
      RunResult(SessionState(Sos, None, 9), 13, true)
  {
    SosSecondEnter(e);
    ShorterNeverMatches("... ", e);
    ShorterNeverMatches("... -", e);
    ShorterNeverMatches("... --", e);
    ShorterNeverMatches("... ---", e);
    assert "... " + ['-'] == "... -" && "... " + ['-', '-'] == "... --" && "... " + ['-', '-', '-'] == "... ---";
    KeyingThree(SessionState("... ", None, 3), e, '-', 4000, [TimedEvent(Key(Enter), 7000)] + Letter('.', 8000));
  }

  lemma SosFirstEnter(e: string)
    requires Trim(e) == Sos
    ensures Drive(SessionState("...", None, 3), e,
                  [TimedEvent(Key(Enter), 3000)] + (Letter('-', 4000) + ([TimedEvent(Key(Enter), 7000)] + Letter('.', 8000)))) ==
      RunResult(SessionState(Sos, None, 9), 14, true)
  {
    SosSecondLetter(e);
    ShorterNeverMatches("... ", e);
    assert "..." + " " == "... ";
    KeyingEnter(SessionState("...", None, 3), e, 3000, Letter('-', 4000) + ([TimedEvent(Key(Enter), 7000)] + Letter('.', 8000)));
  }

  /** Keying "SOS" against any expected code that trims to three dots, three dashes and three dots. */
  lemma SosSessionAgainst(e: string)
    requires Trim(e) == Sos
    ensures Drive(Initial(), e, SosEvents()) == RunResult(SessionState(Sos, None, 9), 20, true)
  {
    var tail := [TimedEvent(Key(Enter), 3000)] + (Letter('-', 4000) + ([TimedEvent(Key(Enter), 7000)] + Letter('.', 8000)));
    SosFirstEnter(e);
    assert SosEvents() == Letter('.', 0) + tail;
    ShorterNeverMatches("", e);
    ShorterNeverMatches(".", e);
    ShorterNeverMatches("..", e);
    ShorterNeverMatches("...", e);
    assert Initial().input + ['.', '.', '.'] == "...";
    KeyingThree(Initial(), e, '.', 0, tail);
  }

  /**
   * Keying "SOS" ends the loop on the ninth release, the twentieth event,
   * with no Enter after the last letter, nine presses counted and the input
   * equal to the expected code.
   */
  lemma SosSession()
    ensures Drive(Initial(), ExpectedMorse("SOS"), SosEvents()) ==
      RunResult(SessionState(Sos, None, 9), 20, true)
  {
    SosCode();
    TrimSpec(Sos);
    SosSessionAgainst(ExpectedMorse("SOS"));
  }

  /**
   * The same session through the class: running the events from a fresh
   * session ends the loop with the expected transcript and nine presses.
   */
  method SosThroughSession() returns (transcript: string, presses: nat, consumed: nat, finished: bool)
    ensures transcript == Sos && presses == 9 && consumed == 20 && finished
  {
    var session := new Session(ExpectedMorse("SOS"));
    consumed, finished := session.Run(SosEvents());
    SosSession();
    transcript, presses := Trim(session.input), session.keypressCount;
    TrimSpec(session.input);
  }

  /** A second press opened and then Esc: the loop ends on the Esc, with the press still open. */
  lemma OpenPressThenEsc(e: string)
    requires Trim(e) == Sos
    ensures Drive(SessionState(".", None, 1), e, [TimedEvent(SpaceKey, 1000)] + [TimedEvent(Key(Esc), 1100)]) ==
      RunResult(SessionState(".", Some(1000), 1), 2, true)
  {
    var esc := [TimedEvent(Key(Esc), 1100)];
    var tail := [TimedEvent(SpaceKey, 1000)] + esc;
    TrimSpec(Sos);
    ShorterNeverMatches(".", e);
    assert tail[1..] == esc;
    assert Next(SessionState(".", None, 1), e, SpaceKey, 1000) == Outcome(SessionState(".", Some(1000), 1), false);
  }

  /**
   * Esc while a press is open ends the loop at once: the open press is not
   * counted, and the input does not match the expected code.
   */
  lemma CancelledSession(e: string)
    requires Trim(e) == Sos
    ensures var r := Drive(Initial(), e, Symbol('.', 0) + ([TimedEvent(SpaceKey, 1000)] + [TimedEvent(Key(Esc), 1100)]));
      r == RunResult(SessionState(".", Some(1000), 1), 4, true) && !Matches(r.state.input, e)
  {
    TrimSpec(Sos);
    ShorterNeverMatches("", e);
    ShorterNeverMatches(".", e);
    OpenPressThenEsc(e);
    KeyingSymbol(Initial(), e, '.', 0, [TimedEvent(SpaceKey, 1000)] + [TimedEvent(Key(Esc), 1100)]);
  }
}
