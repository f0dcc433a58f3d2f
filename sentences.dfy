/** Sentence splitting of the article splitter: a global match of the
    pattern `[^.!?]+[.!?]+\s*` (a run of non-terminators, a run of
    terminators, optional whitespace), falling back to `[text]` when nothing
    matches. The global match scans left to right; at each position it
    takes the longest run of characters other than `.`, `!` and `?`, then
    the longest run of those terminators, then the longest run of
    whitespace. A position holding a terminator cannot start a match and is
    skipped; a final run without a terminator is not matched and is
    dropped. The pattern has no anchors, so scanning from a position is
    scanning the rest of the text. */
module Sentences {
  import opened Text

  predicate IsTerminator(c: char) {
    c == '.' || c == '!' || c == '?'
  }

  /** The three character classes of the pattern. */
  datatype CharClass = NonTerminators | Terminators | Spaces

  predicate InClass(c: char, cls: CharClass) {
    match cls
    case NonTerminators => !IsTerminator(c)
    case Terminators => IsTerminator(c)
    case Spaces => IsSpace(c)
  }

  /** Length of the run of characters of class `cls` at the start of `s`. */
  function RunLen(s: string, cls: CharClass): (n: nat)
    ensures n <= |s|
    ensures forall k :: 0 <= k < n ==> InClass(s[k], cls)
    ensures n < |s| ==> !InClass(s[n], cls)
  {
    if s == [] || !InClass(s[0], cls) then 0 else 1 + RunLen(s[1..], cls)
  }

  /** A run that holds up to `j` and stops there has length `j`. */
  lemma {:induction false} RunLenIs(s: string, j: nat, cls: CharClass)
    requires j <= |s|
    requires forall k :: 0 <= k < j ==> InClass(s[k], cls)
    requires j == |s| || !InClass(s[j], cls)
    ensures RunLen(s, cls) == j
  {
    if j > 0 {
      RunLenIs(s[1..], j - 1, cls);
    }
  }

  /** Where the match starting at the front of `s` ends: the end of the
      whitespace after the terminators after the non-terminators. */
  function MatchEnd(s: string): (w: nat)
    requires RunLen(s, NonTerminators) < |s|
    ensures w <= |s|
  {
    var a := RunLen(s, NonTerminators);
    var b := a + RunLen(s[a..], Terminators);
    b + RunLen(s[b..], Spaces)
  }

  /** All matches in `s`, in order. */
  function Scan(s: string): seq<string>
    decreases |s|
  {
    if s == [] then []
    else if IsTerminator(s[0]) then Scan(s[1..])
    else if RunLen(s, NonTerminators) == |s| then []
    else
      var w := MatchEnd(s);
      [s[..w]] + Scan(s[w..])
  }

  /** One matched sentence: non-terminators, then terminators, then
      whitespace, the first two runs non-empty. */
  predicate SentenceShape(x: string) {
    var a := RunLen(x, NonTerminators);
    0 < a < |x| &&
    forall k :: a + RunLen(x[a..], Terminators) <= k < |x| ==> IsSpace(x[k])
  }

  /** `splitIntoSentences`. */
  function SplitIntoSentences(text: string): (r: seq<string>)
    ensures |r| >= 1
    ensures Scan(text) == [] ==> r == [text]
    ensures Scan(text) != [] ==> forall k :: 0 <= k < |r| ==> SentenceShape(r[k])
  {
    var matches := Scan(text);
    ScanShapes(text);
    if matches == [] then [text] else matches
  }

  /** The match at the front of `s` has the sentence shape. */
  lemma MatchShape(s: string)
    requires s != [] && !IsTerminator(s[0]) && RunLen(s, NonTerminators) < |s|
    ensures SentenceShape(s[..MatchEnd(s)])
  {
    var a := RunLen(s, NonTerminators);
    var b := a + RunLen(s[a..], Terminators);
    var w := MatchEnd(s);
    var x := s[..w];
    PrefixRunLen(s, w, NonTerminators);
    assert RunLen(x, NonTerminators) == a;
    assert s[a..][0] == s[a] && IsTerminator(s[a]);
    assert b > a;
    PrefixRunFrom(s, a, w, Terminators);
    forall k | b <= k < w
      ensures IsSpace(x[k])
    {
      assert x[k] == s[b..][k - b];
    }
  }

  /** Cutting text after a run that starts at `a` leaves the run as it was. */
  lemma PrefixRunFrom(s: string, a: nat, w: nat, cls: CharClass)
    requires a <= w <= |s| && RunLen(s[a..], cls) <= w - a
    ensures RunLen(s[..w][a..], cls) == RunLen(s[a..], cls)
  {
    assert s[..w][a..] == s[a..][..w - a];
    PrefixRunLen(s[a..], w - a, cls);
  }

  /** Cutting text after a run leaves the run as it was. */
  lemma PrefixRunLen(s: string, w: nat, cls: CharClass)
    requires RunLen(s, cls) <= w <= |s|
    ensures RunLen(s[..w], cls) == RunLen(s, cls)
  {
    RunLenIs(s[..w], RunLen(s, cls), cls);
  }

  /** Every match has the sentence shape, and the matches together are no
      longer than the text they come from. */
  lemma {:induction false} ScanShapes(s: string)
    ensures forall k :: 0 <= k < |Scan(s)| ==> SentenceShape(Scan(s)[k])
    ensures |Concat(Scan(s))| <= |s|
    decreases |s|
  {
    if s != [] {
      if IsTerminator(s[0]) {
        ScanShapes(s[1..]);
      } else if RunLen(s, NonTerminators) < |s| {
        var w := MatchEnd(s);
        ScanShapes(s[w..]);
        MatchShape(s);
        var rest := Scan(s[w..]);
        assert ([s[..w]] + rest)[1..] == rest;
      }
    }
  }

  /** Some non-terminator is followed, later on, by a terminator. */
  predicate TerminatedText(s: string) {
    exists i, j :: 0 <= i < j < |s| && !IsTerminator(s[i]) && IsTerminator(s[j])
  }

  /** A leading terminator neither makes nor breaks such a pair. */
  lemma TerminatedTextTail(s: string)
    requires s != [] && IsTerminator(s[0])
    ensures TerminatedText(s) <==> TerminatedText(s[1..])
  {
    if TerminatedText(s) {
      var i, j :| 0 <= i < j < |s| && !IsTerminator(s[i]) && IsTerminator(s[j]);
      assert s[1..][i - 1] == s[i] && s[1..][j - 1] == s[j];
    }
    if TerminatedText(s[1..]) {
      var i, j :| 0 <= i < j < |s[1..]| && !IsTerminator(s[1..][i]) && IsTerminator(s[1..][j]);
      assert s[i + 1] == s[1..][i] && s[j + 1] == s[1..][j];
    }
  }

  /** Nothing matches exactly when no terminator follows a non-terminator,
      i.e. no run of text ends in `.`, `!` or `?`. */
  lemma {:induction false} NoMatchIff(s: string)
    ensures Scan(s) == [] <==> !TerminatedText(s)
    decreases |s|
  {
    if s != [] {
      if IsTerminator(s[0]) {
        NoMatchIff(s[1..]);
        TerminatedTextTail(s);
      } else {
        var a := RunLen(s, NonTerminators);
        if a < |s| {
          assert !IsTerminator(s[0]) && IsTerminator(s[a]);
        } else {
          assert forall j :: 0 <= j < |s| ==> !IsTerminator(s[j]);
        }
      }
    }
  }

  /** A sentence in front of text that starts with neither whitespace nor
      a terminator is matched whole. */
  lemma ScanSentence(x: string, rest: string)
    requires SentenceShape(x)
    requires rest == [] || (!IsTerminator(rest[0]) && !IsSpace(rest[0]))
    ensures Scan(x + rest) == [x] + Scan(rest)
  {
    var s := x + rest;
    SentenceMatchEnd(x, rest);
    assert s[..|x|] == x && s[|x|..] == rest;
  }

  /** The match at the front of a sentence followed by such text ends where
      the sentence ends. */
  lemma SentenceMatchEnd(x: string, rest: string)
    requires SentenceShape(x)
    requires rest == [] || (!IsTerminator(rest[0]) && !IsSpace(rest[0]))
    ensures RunLen(x + rest, NonTerminators) < |x + rest| && MatchEnd(x + rest) == |x|
  {
    var a := RunLen(x, NonTerminators);
    RunLenAppend(x, rest, NonTerminators);
    TerminatorsOfSentence(x, rest);
    SpacesAfter(x, a + RunLen(x[a..], Terminators), rest);
  }

  lemma TerminatorsOfSentence(x: string, rest: string)
    requires SentenceShape(x)
    requires rest == [] || !IsTerminator(rest[0])
    ensures var a := RunLen(x, NonTerminators);
            RunLen((x + rest)[a..], Terminators) == RunLen(x[a..], Terminators)
  {
    var a := RunLen(x, NonTerminators);
    assert (x + rest)[a..] == x[a..] + rest;
    RunLenAppend(x[a..], rest, Terminators);
  }

  /** Whitespace up to the end of `x`, then text that is not whitespace:
      the run of whitespace from `b` ends where `x` ends. */
  lemma SpacesAfter(x: string, b: nat, rest: string)
    requires b <= |x|
    requires forall k :: b <= k < |x| ==> IsSpace(x[k])
    requires rest == [] || !IsSpace(rest[0])
    ensures RunLen((x + rest)[b..], Spaces) == |x| - b
  {
    var t := (x + rest)[b..];
    assert forall k :: 0 <= k < |x| - b ==> t[k] == x[b + k];
    RunLenIs(t, |x| - b, Spaces);
  }

  /** Text after a run does not change the run, unless the run reaches the
      end and the text continues it. */
  lemma {:induction false} RunLenAppend(x: string, rest: string, cls: CharClass)
    requires RunLen(x, cls) < |x| || rest == [] || !InClass(rest[0], cls)
    ensures RunLen(x + rest, cls) == RunLen(x, cls)
  {
    if x != [] && InClass(x[0], cls) {
      assert (x + rest)[1..] == x[1..] + rest;
      RunLenAppend(x[1..], rest, cls);
    } else if x == [] {
      assert x + rest == rest;
    }
  }

  /** Round trip: sentences written one after another (none but the first
      beginning with whitespace), followed by a tail without terminators,
      split back into exactly those sentences; the tail is dropped. */
  lemma {:induction false} SplitJoinedSentences(ss: seq<string>, tail: string)
    requires forall k :: 0 <= k < |ss| ==> SentenceShape(ss[k])
    requires forall k :: 1 <= k < |ss| ==> ss[k] != [] && !IsSpace(ss[k][0])
    requires forall k :: 0 <= k < |tail| ==> !IsTerminator(tail[k])
    requires ss != [] && tail != [] ==> !IsSpace(tail[0])
    ensures Scan(Concat(ss) + tail) == ss
  {
    if ss == [] {
      NoMatchIff(tail);
      assert Concat(ss) + tail == tail;
    } else {
      assert forall k :: 0 <= k < |ss| - 1 ==> ss[1..][k] == ss[k + 1];
      SplitJoinedSentences(ss[1..], tail);
      if |ss| > 1 {
        assert SentenceShape(ss[1]) && ss[1] != [] && !IsSpace(ss[1][0]);
      }
      SplitJoinedStep(ss, tail);
    }
  }

  lemma SplitJoinedStep(ss: seq<string>, tail: string)
    requires ss != [] && SentenceShape(ss[0])
    requires |ss| > 1 ==> SentenceShape(ss[1]) && !IsSpace(ss[1][0])
    requires tail != [] ==> !IsTerminator(tail[0]) && !IsSpace(tail[0])
    requires Scan(Concat(ss[1..]) + tail) == ss[1..]
    ensures Scan(Concat(ss) + tail) == ss
  {
    var c := Concat(ss[1..]);
    var rest := c + tail;
    JoinedStart(ss[1..], tail);
    ScanSentence(ss[0], rest);
    assert Concat(ss) == ss[0] + c;
    Associative(ss[0], c, tail);
    assert ss == [ss[0]] + ss[1..];
  }

  lemma Associative(a: string, b: string, c: string)
    ensures (a + b) + c == a + (b + c)
  {
  }

  /** What follows the first sentence starts with neither whitespace nor a
      terminator. */
  lemma JoinedStart(ss: seq<string>, tail: string)
    requires ss != [] ==> SentenceShape(ss[0]) && !IsSpace(ss[0][0])
    requires tail != [] ==> !IsTerminator(tail[0]) && !IsSpace(tail[0])
    ensures var rest := Concat(ss) + tail;
            rest == [] || (!IsTerminator(rest[0]) && !IsSpace(rest[0]))
  {
    if ss != [] {
      var x := ss[0];
      assert RunLen(x, NonTerminators) > 0;
      assert Concat(ss) + tail == x + (Concat(ss[1..]) + tail);
    } else {
      assert Concat(ss) + tail == tail;
    }
  }

  /** Terminators in front of the text are skipped. */
  lemma {:induction false} LeadingTerminatorsSkipped(t: string, s: string)
    requires forall k :: 0 <= k < |t| ==> IsTerminator(t[k])
    ensures Scan(t + s) == Scan(s)
  {
    if t != [] {
      var u := t + s;
      assert u[0] == t[0] && u != [];
      assert u[1..] == t[1..] + s;
      assert Scan(u) == Scan(u[1..]);
      LeadingTerminatorsSkipped(t[1..], s);
    } else {
      assert t + s == s;
    }
  }
}
