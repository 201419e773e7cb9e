/**
 * The string operations the drill relies on: joining per-letter codes with a
 * single space (`join(" ")`), splitting on a single space (`split(' ')`, the
 * reader's inverse of the join), and trimming the surrounding blanks before
 * the input is compared with the expected code.
 */
module Strings {

  /** Every character of `s` is drawn from `alphabet`. */
  predicate OverAlphabet(s: string, alphabet: set<char>)
  {
    forall i :: 0 <= i < |s| ==> s[i] in alphabet
  }

  /** The parts, separated by one space each; no parts give the empty string. */
  function Join(parts: seq<string>): string
  {
    if |parts| == 0 then ""
    else if |parts| == 1 then parts[0]
    else parts[0] + " " + Join(parts[1..])
  }

  /**
   * Splitting on every single space. Like Rust's `str::split`, the result is
   * never empty, and adjacent or surrounding spaces give empty pieces.
   */
  function Split(s: string): (r: seq<string>)
    ensures |r| >= 1
    ensures forall i :: 0 <= i < |r| ==> ' ' !in r[i]
    decreases |s|
  {
    if s == [] then [""]
    else
      var rest := Split(s[1..]);
      if s[0] == ' ' then [""] + rest
      else [[s[0]] + rest[0]] + rest[1..]
  }

  /** Leading spaces removed. */
  function TrimStart(s: string): (r: string)
    ensures |r| <= |s|
    decreases |s|
  {
    if s != [] && s[0] == ' ' then TrimStart(s[1..]) else s
  }

  /** Trailing spaces removed. */
  function TrimEnd(s: string): (r: string)
    ensures |r| <= |s|
    decreases |s|
  {
    if s != [] && s[|s| - 1] == ' ' then TrimEnd(s[..|s| - 1]) else s
  }

  /** Both ends trimmed, as Rust's `str::trim` does on text whose only blank is `' '`. */
  function Trim(s: string): (r: string)
    ensures |r| <= |s|
  {
    TrimEnd(TrimStart(s))
  }

  /** `TrimStart` gives the longest suffix of `s` that does not start with a space. */
  lemma {:induction false} TrimStartSpec(s: string)
    ensures var r := TrimStart(s);
      && r == s[|s| - |r|..]
      && (r == [] || r[0] != ' ')
      && forall i :: 0 <= i < |s| - |r| ==> s[i] == ' '
    decreases |s|
  {
    if s != [] && s[0] == ' ' {
      TrimStartSpec(s[1..]);
    }
  }

  /** `TrimEnd` gives the longest prefix of `s` that does not end in a space. */
  lemma {:induction false} TrimEndSpec(s: string)
    ensures var r := TrimEnd(s);
      && r == s[..|r|]
      && (r == [] || r[|r| - 1] != ' ')
      && forall i :: |r| <= i < |s| ==> s[i] == ' '
    decreases |s|
  {
    if s != [] && s[|s| - 1] == ' ' {
      TrimEndSpec(s[..|s| - 1]);
    }
  }

  /**
   * The trimmed text is empty exactly when `s` is all spaces; otherwise it
   * neither starts nor ends with a space. Text with no blank at either end is
   * kept whole.
   */
  lemma TrimSpec(s: string)
    ensures Trim(s) == [] <==> forall i :: 0 <= i < |s| ==> s[i] == ' '
    ensures Trim(s) == [] || (Trim(s)[0] != ' ' && Trim(s)[|Trim(s)| - 1] != ' ')
    ensures s != [] && s[0] != ' ' && s[|s| - 1] != ' ' ==> Trim(s) == s
  {
    var t := TrimStart(s);
    TrimStartSpec(s);
    TrimEndSpec(t);
    var r := TrimEnd(t);
    if t != [] {
      assert r[0] == t[0];
    }
  }

  // ----- Join and Split are inverse -----

  lemma {:induction false} SplitWithoutSpace(w: string)
    requires ' ' !in w
    ensures Split(w) == [w]
    decreases |w|
  {
    if w != [] {
      assert w[1..] + [] == w[1..];
      SplitWithoutSpace(w[1..]);
      assert [w[0]] + w[1..] == w;
    }
  }

  lemma {:induction false} SplitAfterWord(w: string, s: string)
    requires ' ' !in w
    ensures Split(w + " " + s) == [w] + Split(s)
    decreases |w|
  {
    var x := w + " " + s;
    if w == [] {
      assert x[0] == ' ' && x[1..] == s;
    } else {
      assert x[0] == w[0] && x[1..] == w[1..] + " " + s;
      SplitAfterWord(w[1..], s);
      assert [w[0]] + w[1..] == w;
    }
  }

  /** Splitting a join of space-free parts gives the parts back. */
  lemma {:induction false} SplitJoin(parts: seq<string>)
    requires |parts| >= 1
    requires forall i :: 0 <= i < |parts| ==> ' ' !in parts[i]
    ensures Split(Join(parts)) == parts
    decreases |parts|
  {
    if |parts| == 1 {
      SplitWithoutSpace(parts[0]);
    } else {
      SplitJoin(parts[1..]);
      SplitAfterWord(parts[0], Join(parts[1..]));
      assert [parts[0]] + parts[1..] == parts;
    }
  }

  /** Joining the pieces of a split gives the string back, whatever it holds. */
  lemma {:induction false} JoinSplit(s: string)
    ensures Join(Split(s)) == s
    decreases |s|
  {
    if s != [] {
      var rest := Split(s[1..]);
      JoinSplit(s[1..]);
      if s[0] == ' ' {
        assert ([""] + rest)[1..] == rest;
      } else {
        var r := [[s[0]] + rest[0]] + rest[1..];
        if |rest| > 1 {
          assert r[1..] == rest[1..];
        }
      }
      assert [s[0]] + s[1..] == s;
    }
  }

  // ----- Join: concatenation, alphabet and length -----

  /** Joining two non-empty lists puts exactly one space between their joins. */
  lemma {:induction false} JoinAppend(xs: seq<string>, ys: seq<string>)
    requires |xs| >= 1 && |ys| >= 1
    ensures Join(xs + ys) == Join(xs) + " " + Join(ys)
    decreases |xs|
  {
    if |xs| == 1 {
      assert (xs + ys)[1..] == ys;
    } else {
      assert (xs + ys)[1..] == xs[1..] + ys;
      JoinAppend(xs[1..], ys);
    }
  }

  /** A lone space part after nonempty parts adds the joiner and the space itself. */
  lemma JoinThenSpace(xs: seq<string>)
    requires |xs| >= 1
    ensures Join(xs + [" "]) == Join(xs) + "  "
  {
    JoinAppend(xs, [" "]);
    assert Join([" "]) == " ";
  }

  /** A lone space part between two nonempty lists of parts joins as three spaces. */
  lemma JoinAroundSpace(xs: seq<string>, ys: seq<string>)
    requires |xs| >= 1 && |ys| >= 1
    ensures Join(xs + [" "] + ys) == Join(xs) + "   " + Join(ys)
  {
    JoinAppend(xs + [" "], ys);
    JoinThenSpace(xs);
    ThreeSpaces(Join(xs), Join(ys));
  }

  /** Two spaces followed by one are the three spaces of a word gap, between any two strings. */
  lemma ThreeSpaces(a: string, b: string)
    ensures a + "  " + " " + b == a + "   " + b
  {
  }

  /** A join of parts over an alphabet that holds the space is over that alphabet. */
  lemma {:induction false} JoinOverAlphabet(parts: seq<string>, alphabet: set<char>)
    requires ' ' in alphabet
    requires forall i :: 0 <= i < |parts| ==> OverAlphabet(parts[i], alphabet)
    ensures OverAlphabet(Join(parts), alphabet)
    decreases |parts|
  {
    if |parts| > 1 {
      JoinOverAlphabet(parts[1..], alphabet);
    }
  }

  /** Parts of at most `k` characters join into at most `k + 1` characters per part. */
  lemma {:induction false} JoinLength(parts: seq<string>, k: nat)
    requires forall i :: 0 <= i < |parts| ==> |parts[i]| <= k
    ensures |Join(parts)| <= (k + 1) * |parts|
    decreases |parts|
  {
    if |parts| > 1 {
      JoinLength(parts[1..], k);
      assert (k + 1) * |parts| == (k + 1) * (|parts| - 1) + k + 1;
    }
  }

  /** Non-empty parts join to the empty string only when there are none. */
  lemma JoinNonEmpty(parts: seq<string>)
    requires forall i :: 0 <= i < |parts| ==> parts[i] != []
    ensures Join(parts) == [] <==> parts == []
  {
  }

  // ----- Trim ignores a trailing blank -----

  lemma {:induction false} TrimStartAppendSpace(s: string)
    requires exists i :: 0 <= i < |s| && s[i] != ' '
    ensures TrimStart(s + " ") == TrimStart(s) + " "
    decreases |s|
  {
    if s[0] == ' ' {
      var i :| 0 <= i < |s| && s[i] != ' ';
      assert s[1..][i - 1] != ' ';
      assert (s + " ")[1..] == s[1..] + " ";
      TrimStartAppendSpace(s[1..]);
    }
  }

  /** Appending a space never changes the trimmed text. */
  lemma TrimAppendSpace(s: string)
    ensures Trim(s + " ") == Trim(s)
  {
    var x := s + " ";
    TrimSpec(s);
    TrimSpec(x);
    if forall i :: 0 <= i < |s| ==> s[i] == ' ' {
      assert forall i :: 0 <= i < |x| ==> x[i] == ' ';
    } else {
      TrimStartAppendSpace(s);
      var t := TrimStart(s);
      TrimStartSpec(s);
      assert t != [] by {
        var i :| 0 <= i < |s| && s[i] != ' ';
      }
      var u := t + " ";
      assert u[..|u| - 1] == t;
      assert TrimEnd(u) == TrimEnd(t);
    }
  }
}
