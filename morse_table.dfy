/**
 * The letter table of International Morse Code (Recommendation ITU-R M.1677-1,
 * Part I, section 1.1.1, letters A to Z) as the drill builds it, plus the entry
 * that maps the space character to a one-space code.
 */
module MorseTable {
  import opened Wrappers
  import opened Strings

  /** The symbols a letter code is written in. */
  const Symbols: set<char> := {'.', '-'}

  /** The characters Morse text is written in: the symbols and the space between codes. */
  const MorseChars: set<char> := {'.', '-', ' '}

  const Table: map<char, string> := map[
    'A' := ".-",   'B' := "-...", 'C' := "-.-.", 'D' := "-..",
    'E' := ".",    'F' := "..-.", 'G' := "--.",  'H' := "....",
    'I' := "..",   'J' := ".---", 'K' := "-.-",  'L' := ".-..",
    'M' := "--",   'N' := "-.",   'O' := "---",  'P' := ".--.",
    'Q' := "--.-", 'R' := ".-.",  'S' := "...",  'T' := "-",
    'U' := "..-",  'V' := "...-", 'W' := ".--",  'X' := "-..-",
    'Y' := "-.--", 'Z' := "--..", ' ' := " "
  ]

  /** An upper-case ASCII letter. */
  predicate IsLetter(c: char)
  {
    'A' <= c <= 'Z'
  }

  /**
   * The table entry for `c`, if any. Exactly the 26 capital letters and the
   * space are present; every code is one to four characters long; a letter's
   * code is written in dots and dashes only and the space's code is one space.
   */
  function Lookup(c: char): (r: Option<string>)
    ensures r.Some? <==> IsLetter(c) || c == ' '
    ensures r.Some? ==> 1 <= |r.value| <= 4
    ensures IsLetter(c) ==> OverAlphabet(r.value, Symbols)
    ensures c == ' ' ==> r == Some(" ")
  {
    if c in Table then Some(Table[c]) else None
  }

  /** The table read backwards: a letter code to its letter. */
  const Letters: map<string, char> := map[
    ".-" := 'A',   "-..." := 'B', "-.-." := 'C', "-.." := 'D',
    "." := 'E',    "..-." := 'F', "--." := 'G',  "...." := 'H',
    ".." := 'I',   ".---" := 'J', "-.-" := 'K',  ".-.." := 'L',
    "--" := 'M',   "-." := 'N',   "---" := 'O',  ".--." := 'P',
    "--.-" := 'Q', ".-." := 'R',  "..." := 'S',  "-" := 'T',
    "..-" := 'U',  "...-" := 'V', ".--" := 'W',  "-..-" := 'X',
    "-.--" := 'Y', "--.." := 'Z'
  ]

  /** The letter a code stands for, if it is a letter code. */
  function Decode(code: string): Option<char>
  {
    if code in Letters then Some(Letters[code]) else None
  }

  /** A letter's code decodes to that letter, so no two letters share a code. */
  lemma DecodeLookup(c: char)
    requires IsLetter(c)
    ensures Decode(Lookup(c).value) == Some(c)
  {
  }

  /** Whatever decodes to a letter is that letter's table code. */
  lemma LookupDecode(code: string)
    requires Decode(code).Some?
    ensures IsLetter(Decode(code).value) && Lookup(Decode(code).value) == Some(code)
  {
  }
}
