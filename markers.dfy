/** The reference-marker syntax shared by the server and the client: a `[`,
    one or more decimal digits and a `]` (the regular expression `\[(\d+)\]`).
    A text is read left to right, as a global regular-expression replace or
    split does, into plain characters and markers. */
module Markers {
  import opened Text

  datatype Token = Plain(c: char) | Marker(digits: string)

  /** End (exclusive) of the run of digits that starts at `i`. */
  function DigitRunEnd(s: string, i: nat): (j: nat)
    requires i <= |s|
    decreases |s| - i
    ensures i <= j <= |s|
    ensures forall k :: i <= k < j ==> IsDigit(s[k])
    ensures j < |s| ==> !IsDigit(s[j])
  {
    if i == |s| || !IsDigit(s[i]) then i else DigitRunEnd(s, i + 1)
  }

  /** A marker starts at position `i` of `s`. Because `\d+` is greedy and
      a digit is never `]`, the marker is the whole digit run followed by `]`. */
  predicate MarkerAt(s: string, i: nat) {
    i < |s| && s[i] == '[' &&
    var j := DigitRunEnd(s, i + 1);
    j > i + 1 && j < |s| && s[j] == ']'
  }

  /** Length of the marker that starts at `i` (brackets included). */
  function MarkerLength(s: string, i: nat): (n: nat)
    requires MarkerAt(s, i)
    ensures 3 <= n && i + n <= |s|
  {
    DigitRunEnd(s, i + 1) + 1 - i
  }

  /** The digits of the marker that starts at `i`. */
  function MarkerDigits(s: string, i: nat): (d: string)
    requires MarkerAt(s, i)
    ensures d != [] && AllDigits(d)
    ensures s[i..i + MarkerLength(s, i)] == "[" + d + "]"
  {
    var j := DigitRunEnd(s, i + 1);
    var d := s[i + 1..j];
    assert s[i..j + 1] == [s[i]] + d + [s[j]];
    d
  }

  function RenderToken(t: Token): string {
    match t
    case Plain(c) => [c]
    case Marker(d) => "[" + d + "]"
  }

  /** Concatenation of the rendered tokens. */
  function Untokenize(ts: seq<Token>): string {
    if ts == [] then "" else RenderToken(ts[0]) + Untokenize(ts[1..])
  }

  predicate WellFormed(ts: seq<Token>) {
    forall k :: 0 <= k < |ts| && ts[k].Marker? ==> ts[k].digits != [] && AllDigits(ts[k].digits)
  }

  /** Left-to-right reading of `s` into plain characters and markers. */
  function Tokenize(s: string): (ts: seq<Token>)
    decreases |s|
    ensures WellFormed(ts)
  {
    if s == [] then []
    else if MarkerAt(s, 0) then
      [Marker(MarkerDigits(s, 0))] + Tokenize(s[MarkerLength(s, 0)..])
    else [Plain(s[0])] + Tokenize(s[1..])
  }

  lemma {:induction false} UntokenizeAppend(a: seq<Token>, b: seq<Token>)
    ensures Untokenize(a + b) == Untokenize(a) + Untokenize(b)
  {
    if a == [] {
      assert a + b == b;
    } else {
      assert (a + b)[1..] == a[1..] + b;
      UntokenizeAppend(a[1..], b);
    }
  }

  /** Reading a text into tokens loses nothing: the tokens render back to
      the text. */
  lemma {:induction false} TokenizeRoundTrip(s: string)
    ensures Untokenize(Tokenize(s)) == s
    decreases |s|
  {
    if s == [] {
    } else if MarkerAt(s, 0) {
      var n := MarkerLength(s, 0);
      TokenizeRoundTrip(s[n..]);
      assert s == s[..n] + s[n..];
    } else {
      TokenizeRoundTrip(s[1..]);
      assert s == [s[0]] + s[1..];
    }
  }

  /** A rendered marker reads back as the same marker, whatever follows it
      (after `]` the digit run is over). */
  lemma {:induction false} MarkerTokenizes(d: string, rest: string)
    requires d != [] && AllDigits(d)
    ensures MarkerAt("[" + d + "]" + rest, 0)
    ensures MarkerDigits("[" + d + "]" + rest, 0) == d
    ensures MarkerLength("[" + d + "]" + rest, 0) == |d| + 2
  {
    var s := "[" + d + "]" + rest;
    DigitRunFrom(s, 1, |d| + 1);
  }

  /** The digit run starting at `i` ends at `j` when everything between is a
      digit and `s[j]` is not. */
  lemma {:induction false} DigitRunFrom(s: string, i: nat, j: nat)
    requires i <= j < |s|
    requires forall k :: i <= k < j ==> IsDigit(s[k])
    requires !IsDigit(s[j])
    ensures DigitRunEnd(s, i) == j
    decreases j - i
  {
    if i < j { DigitRunFrom(s, i + 1, j); }
  }

  /** The digit strings of the markers of `ts`, in order. */
  function MarkerIds(ts: seq<Token>): (ids: seq<string>)
    ensures |ids| <= |ts|
  {
    if ts == [] then []
    else if ts[0].Marker? then [ts[0].digits] + MarkerIds(ts[1..])
    else MarkerIds(ts[1..])
  }

  predicate NoMarkers(ts: seq<Token>) {
    forall k :: 0 <= k < |ts| ==> ts[k].Plain?
  }
}
