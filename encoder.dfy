/**
 * The encoder: the target phrase is upper-cased, every character that has a
 * table entry is replaced by its code, characters without one are dropped,
 * and the codes are joined with a single space.
 */
module Encoder {
  import opened Wrappers
  import opened Strings
  import opened MorseTable

  /** ASCII upper-casing: `a` to `z` become `A` to `Z`, everything else stays. */
  function ToUpper(c: char): (r: char)
    ensures IsLetter(r) <==> IsLetter(c) || 'a' <= c <= 'z'
    ensures 'a' <= c <= 'z' ==> r as int == c as int - 32
    ensures !('a' <= c <= 'z') ==> r == c
  {
    if 'a' <= c <= 'z' then (c as int - 32) as char else c
  }

  function Upper(s: string): (r: string)
    ensures |r| == |s|
    ensures forall i :: 0 <= i < |s| ==> r[i] == ToUpper(s[i])
  {
    seq(|s|, i requires 0 <= i < |s| => ToUpper(s[i]))
  }

  /** The codes of the characters that have one, in order; the rest are dropped. */
  function Codes(s: string): (r: seq<string>)
    ensures |r| <= |s|
    decreases |s|
  {
    if s == [] then []
    else
      match Lookup(s[0])
      case Some(code) => [code] + Codes(s[1..])
      case None => Codes(s[1..])
  }

  /** The code the user is expected to type for `text`. */
  function ExpectedMorse(text: string): (r: string)
    ensures OverAlphabet(r, MorseChars)
    ensures |r| <= 5 * |text|
  {
    var codes := Codes(Upper(text));
    CodesWellFormed(Upper(text));
    JoinOverAlphabet(codes, MorseChars);
    JoinLength(codes, 4);
    Join(codes)
  }

  /** Upper-casing works character by character, so it distributes over concatenation. */
  lemma UpperAppend(a: string, b: string)
    ensures Upper(a + b) == Upper(a) + Upper(b)
  {
  }

  /** Text without lower-case letters is its own upper-cased form. */
  lemma UpperOfCapitals(s: string)
    requires forall i :: 0 <= i < |s| ==> !('a' <= s[i] <= 'z')
    ensures Upper(s) == s
  {
  }

  // ----- Codes -----

  /** Every code that comes out is one to four characters of the expected code's alphabet. */
  lemma {:induction false} CodesWellFormed(s: string)
    ensures forall i :: 0 <= i < |Codes(s)| ==> 1 <= |Codes(s)[i]| <= 4 && OverAlphabet(Codes(s)[i], MorseChars)
    decreases |s|
  {
    if s != [] {
      CodesWellFormed(s[1..]);
    }
  }

  /** No code comes out exactly when no character has a table entry. */
  lemma {:induction false} CodesEmpty(s: string)
    ensures Codes(s) == [] <==> forall i :: 0 <= i < |s| ==> Lookup(s[i]).None?
    decreases |s|
  {
    if s != [] {
      CodesEmpty(s[1..]);
      assert forall i :: 1 <= i < |s| ==> s[i] == s[1..][i - 1];
    }
  }

  /** A character with a table entry contributes its code in front of the codes of what follows. */
  lemma CodesCons(c: char, s: string)
    requires Lookup(c).Some?
    ensures Codes([c] + s) == [Lookup(c).value] + Codes(s)
  {
    assert ([c] + s)[1..] == s;
  }

  /** The codes of a concatenation are the codes of its halves, concatenated. */
  lemma {:induction false} CodesAppend(a: string, b: string)
    ensures Codes(a + b) == Codes(a) + Codes(b)
    decreases |a|
  {
    if a != [] {
      assert (a + b)[0] == a[0] && (a + b)[1..] == a[1..] + b;
      CodesAppend(a[1..], b);
    } else {
      assert a + b == b;
    }
  }

  /** Over capital letters and spaces, every character gives exactly its table code. */
  lemma {:induction false} CodesOfLetters(s: string)
    requires forall i :: 0 <= i < |s| ==> IsLetter(s[i]) || s[i] == ' '
    ensures |Codes(s)| == |s|
    ensures forall i :: 0 <= i < |s| ==> Lookup(s[i]) == Some(Codes(s)[i])
    decreases |s|
  {
    if s != [] {
      CodesOfLetters(s[1..]);
      assert forall i :: 1 <= i < |s| ==> s[i] == s[1..][i - 1];
    }
  }

  // ----- Properties of the encoding -----

  /** The encoding is empty exactly when no character of the phrase has a table entry once upper-cased. */
  lemma EmptyEncoding(text: string)
    ensures ExpectedMorse(text) == [] <==> forall i :: 0 <= i < |text| ==> Lookup(ToUpper(text[i])).None?
  {
    CodesWellFormed(Upper(text));
    JoinNonEmpty(Codes(Upper(text)));
    CodesEmpty(Upper(text));
  }

  /** The encoding ignores case: a phrase and its upper-cased form encode alike. */
  lemma CaseInsensitive(text: string)
    ensures ExpectedMorse(Upper(text)) == ExpectedMorse(text)
  {
    assert Upper(Upper(text)) == Upper(text);
  }

  /** Two phrases that differ only in the case of their letters encode alike. */
  lemma SameUpperSameEncoding(a: string, b: string)
    requires |a| == |b|
    requires forall i :: 0 <= i < |a| ==> ToUpper(a[i]) == ToUpper(b[i])
    ensures ExpectedMorse(a) == ExpectedMorse(b)
  {
    assert Upper(a) == Upper(b);
  }

  /** A character without a table entry can be inserted anywhere without changing the encoding. */
  lemma DropUnmapped(a: string, c: char, b: string)
    requires Lookup(ToUpper(c)).None?
    ensures ExpectedMorse(a + [c] + b) == ExpectedMorse(a + b)
  {
    assert Upper(a + [c] + b) == Upper(a) + [ToUpper(c)] + Upper(b);
    assert Upper(a + b) == Upper(a) + Upper(b);
    CodesAppend(Upper(a) + [ToUpper(c)], Upper(b));
    CodesAppend(Upper(a), [ToUpper(c)]);
    CodesAppend(Upper(a), Upper(b));
    assert Codes([ToUpper(c)]) == [];
    assert Codes(Upper(a)) + [] == Codes(Upper(a));
  }

  /**
   * For a phrase of letters only (either case), splitting the encoding on
   * single spaces gives one piece per letter, each piece is that letter's
   * table code, and decoding the pieces gives the upper-cased phrase back.
   */
  lemma LetterByLetter(text: string)
    requires text != []
    requires forall i :: 0 <= i < |text| ==> IsLetter(ToUpper(text[i]))
    ensures |Split(ExpectedMorse(text))| == |text|
    ensures forall i :: 0 <= i < |text| ==>
      var piece := Split(ExpectedMorse(text))[i];
      Lookup(ToUpper(text[i])) == Some(piece) && Decode(piece) == Some(ToUpper(text[i]))
  {
    var up := Upper(text);
    var codes := Codes(up);
    CodesOfLetters(up);
    forall i | 0 <= i < |codes|
      ensures ' ' !in codes[i]
    {
      assert OverAlphabet(codes[i], Symbols);
    }
    SplitJoin(codes);
    forall i | 0 <= i < |text|
      ensures Decode(codes[i]) == Some(ToUpper(text[i]))
    {
      DecodeLookup(up[i]);
    }
  }

  /** A space between two pieces of text contributes exactly the space's own code. */
  lemma CodesAroundSpace(a: string, b: string)
    ensures Codes(a + " " + b) == Codes(a) + [" "] + Codes(b)
  {
    CodesAppend(a + " ", b);
    CodesAppend(a, " ");
    assert Codes(" ") == [" "];
  }

  /**
   * A space between two words that each have codes comes out as three
   * spaces: the joiner, the space's own code, and the joiner again.
   */
  lemma WordGap(u: string, v: string)
    requires Codes(Upper(u)) != [] && Codes(Upper(v)) != []
    ensures ExpectedMorse(u + " " + v) == ExpectedMorse(u) + "   " + ExpectedMorse(v)
  {
    UpperAppend(u + " ", v);
    UpperAppend(u, " ");
    assert Upper(" ") == " ";
    CodesAroundSpace(Upper(u), Upper(v));
    JoinAroundSpace(Codes(Upper(u)), Codes(Upper(v)));
  }
}
