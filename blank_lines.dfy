/** `content.split(/\n\s*\n/)`: splitting an article into paragraphs at
    blank lines. The regular expression is a newline, the longest run of
    whitespace after it, and then backtracking to the last newline in that
    run; so a separator is a newline, any whitespace, and a newline, and it
    reaches as far as the last newline of the whitespace that follows the
    first one. The split searches left to right and resumes after each
    separator; pieces may be empty. */
module BlankLines {
  import opened Text

  /** Index of the last occurrence of `c` in `t`. */
  function LastIndex(t: string, c: char): (r: Option<nat>)
    ensures r.Some? ==> r.value < |t| && t[r.value] == c && forall k :: r.value < k < |t| ==> t[k] != c
    ensures r.None? ==> forall k :: 0 <= k < |t| ==> t[k] != c
  {
    if t == [] then None
    else if t[|t| - 1] == c then Some(|t| - 1)
    else LastIndex(t[..|t| - 1], c)
  }

  /** Length of the separator that the pattern matches at the front of `s`,
      if it matches there. */
  function SeparatorAt(s: string): (r: Option<nat>)
    ensures r.Some? ==> 2 <= r.value <= |s|
  {
    if s == [] || s[0] != '\n' then None
    else
      var run := LeadingSpaces(s[1..]);
      match LastIndex(s[1..][..run], '\n')
      case None => None
      case Some(j) => Some(j + 2)
  }

  /** What the pattern matches: a newline, whitespace, a newline. */
  predicate IsSeparator(q: string) {
    |q| >= 2 && q[0] == '\n' && q[|q| - 1] == '\n' && AllSpace(q)
  }

  /** Pieces between separators, and the separators themselves. */
  datatype Split = Split(pieces: seq<string>, separators: seq<string>)

  /** Split `s`, searching for the next separator from position `i`. */
  function SplitFrom(s: string, i: nat): (r: Split)
    requires i <= |s|
    decreases |s|, |s| - i
  {
    if i == |s| then Split([s], [])
    else
      match SeparatorAt(s[i..])
      case Some(n) =>
        var rest := SplitFrom(s[i + n..], 0);
        Split([s[..i]] + rest.pieces, [s[i..i + n]] + rest.separators)
      case None => SplitFrom(s, i + 1)
  }

  /** `s.split(/\n\s*\n/)`. */
  function SplitBlankLines(s: string): (pieces: seq<string>)
    ensures |pieces| >= 1
  {
    SplitShape(s, 0);
    SplitFrom(s, 0).pieces
  }

  /** The pieces with the separators put back between them. */
  function Interleave(pieces: seq<string>, separators: seq<string>): string
    requires |pieces| == |separators| + 1
  {
    if separators == [] then pieces[0]
    else pieces[0] + separators[0] + Interleave(pieces[1..], separators[1..])
  }

  /** A separator found at the front of `s` has the separator shape. */
  lemma SeparatorShape(s: string)
    requires SeparatorAt(s).Some?
    ensures IsSeparator(s[..SeparatorAt(s).value])
  {
    var run := LeadingSpaces(s[1..]);
    var n := SeparatorAt(s).value;
    var j := n - 2;
    assert s[1..][..run][j] == '\n';
    assert forall k :: 1 <= k < n ==> s[k] == s[1..][..run][k - 1];
  }

  /** There is one more piece than separators, every separator has the
      separator shape, and putting the separators back between the pieces
      gives the text again. */
  lemma {:induction false} SplitShape(s: string, i: nat)
    requires i <= |s|
    ensures var r := SplitFrom(s, i);
            |r.pieces| == |r.separators| + 1 &&
            (forall k :: 0 <= k < |r.separators| ==> IsSeparator(r.separators[k])) &&
            Interleave(r.pieces, r.separators) == s
    decreases |s|, |s| - i
  {
    if i == |s| {
    } else {
      match SeparatorAt(s[i..])
      case Some(n) =>
        SplitShape(s[i + n..], 0);
        SeparatorShape(s[i..]);
        var rest := SplitFrom(s[i + n..], 0);
        var r := SplitFrom(s, i);
        assert r.pieces[1..] == rest.pieces && r.separators[1..] == rest.separators;
        assert s[i..][..n] == s[i..i + n];
        assert s == s[..i] + s[i..i + n] + s[i + n..];
      case None =>
        SplitShape(s, i + 1);
    }
  }

  /** The split of `s` round-trips: the pieces joined by the separators the
      pattern matched give `s` back. */
  lemma SplitRoundTrip(s: string)
    ensures var r := SplitFrom(s, 0);
            SplitBlankLines(s) == r.pieces && |r.pieces| == |r.separators| + 1 &&
            (forall k :: 0 <= k < |r.separators| ==> IsSeparator(r.separators[k])) &&
            Interleave(r.pieces, r.separators) == s
  {
    SplitShape(s, 0);
  }

  /** Text without a newline is one paragraph. */
  lemma {:induction false} NoNewlineOnePiece(s: string, i: nat)
    requires i <= |s|
    requires forall k :: 0 <= k < |s| ==> s[k] != '\n'
    ensures SplitFrom(s, i).pieces == [s]
    decreases |s| - i
  {
    if i < |s| {
      assert SeparatorAt(s[i..]).None?;
      NoNewlineOnePiece(s, i + 1);
    }
  }
}
