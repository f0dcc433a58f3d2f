/** The article splitter: paragraphs from blank lines, short paragraphs
    merged, long paragraphs cut into overlapping halves at sentence
    boundaries, and the pieces numbered per article. */
module ArticleSplit {
  import opened Text
  import opened Sentences
  import opened BlankLines

  const MaxSegmentLength := 800
  const MinParagraphLength := 100

  // ---------------------------------------------------------------------------
  // combineShortParagraphs

  /** The loop state: the paragraphs emitted so far and the one being built. */
  datatype Combining = Combining(done: seq<string>, current: string)

  /** One loop iteration: trim the paragraph; with a paragraph under
      construction, append to it when either is short, otherwise emit it
      and start over; with none, start with this one. */
  function CombineStep(st: Combining, p: string): Combining {
    var paragraph := Trim(p);
    if st.current != "" then
      if |paragraph| < MinParagraphLength || |st.current| < MinParagraphLength then
        Combining(st.done, st.current + "\n\n" + paragraph)
      else
        Combining(st.done + [st.current], paragraph)
    else
      Combining(st.done, paragraph)
  }

  /** The loop state after the given paragraphs. */
  function CombineAll(ps: seq<string>): Combining {
    if ps == [] then Combining([], "")
    else CombineStep(CombineAll(ps[..|ps| - 1]), ps[|ps| - 1])
  }

  /** The output: the emitted paragraphs and, when non-empty, the last one. */
  function Combined(ps: seq<string>): seq<string> {
    var st := CombineAll(ps);
    if st.current != "" then st.done + [st.current] else st.done
  }

  /** `combineShortParagraphs`. */
  method CombineShortParagraphs(paragraphs: seq<string>) returns (combined: seq<string>)
    ensures combined == Combined(paragraphs)
  {
    combined := [];
    var current := "";
    for i := 0 to |paragraphs|
      invariant Combining(combined, current) == CombineAll(paragraphs[..i])
    {
      assert paragraphs[..i + 1][..i] == paragraphs[..i];
      var paragraph := Trim(paragraphs[i]);
      if current != "" {
        if |paragraph| < MinParagraphLength || |current| < MinParagraphLength {
          current := current + "\n\n" + paragraph;
        } else {
          combined := combined + [current];
          current := paragraph;
        }
      } else {
        current := paragraph;
      }
    }
    assert paragraphs[..|paragraphs|] == paragraphs;
    if current != "" {
      combined := combined + [current];
    }
  }

  /** Every paragraph trimmed, in order. */
  function TrimAll(ps: seq<string>): (r: seq<string>)
    ensures |r| == |ps|
  {
    if ps == [] then [] else TrimAll(ps[..|ps| - 1]) + [Trim(ps[|ps| - 1])]
  }

  /** Emitted paragraphs are at least `MinParagraphLength` long, and there
      are no more paragraphs, emitted or in progress, than inputs. */
  lemma {:induction false} CombineAllBounds(ps: seq<string>)
    ensures var st := CombineAll(ps);
            (forall k :: 0 <= k < |st.done| ==> |st.done[k]| >= MinParagraphLength) &&
            |st.done| + (if st.current != "" then 1 else 0) <= |ps|
  {
    if ps != [] {
      CombineAllBounds(ps[..|ps| - 1]);
    }
  }

  /** Every output paragraph but the last is at least `MinParagraphLength`
      long, none is empty, and there are no more outputs than inputs. */
  lemma CombinedBounds(ps: seq<string>)
    ensures var r := Combined(ps);
            |r| <= |ps| &&
            (forall k :: 0 <= k < |r| - 1 ==> |r[k]| >= MinParagraphLength) &&
            (forall k :: 0 <= k < |r| ==> r[k] != "")
  {
    CombineAllBounds(ps);
  }

  /** When no input is blank, the paragraph under construction is never
      empty once one input is read, and the emitted ones followed by it,
      joined with blank lines, are the trimmed inputs joined with blank
      lines. */
  lemma {:induction false} CombineAllJoin(ps: seq<string>)
    requires forall k :: 0 <= k < |ps| ==> Trim(ps[k]) != ""
    ensures var st := CombineAll(ps);
            ps != [] ==> st.current != "" && Join(st.done + [st.current], "\n\n") == Join(TrimAll(ps), "\n\n")
  {
    if ps != [] {
      var init := ps[..|ps| - 1];
      var p := Trim(ps[|ps| - 1]);
      var st := CombineAll(init);
      CombineAllJoin(init);
      CombineAllBounds(init);
      JoinAppend(TrimAll(init), p, "\n\n");
      if st.current != "" {
        if |p| < MinParagraphLength || |st.current| < MinParagraphLength {
          JoinMergeLast(st.done, st.current, p, "\n\n");
        } else {
          JoinAppend(st.done + [st.current], p, "\n\n");
        }
      } else {
        assert init == [];
      }
    }
  }

  /** Appending to the last part with the separator in between is joining
      one more part. */
  lemma JoinMergeLast(done: seq<string>, current: string, p: string, sep: string)
    ensures Join(done + [current + sep + p], sep) == Join(done + [current], sep) + sep + p
  {
    JoinAppend(done, current, sep);
    JoinAppend(done, current + sep + p, sep);
    if done != [] {
      var j := Join(done, sep);
      assert j + sep + (current + sep + p) == (j + sep + current) + sep + p;
    }
  }

  /** Merging only regroups: when no input paragraph is blank, the output
      joined with blank lines equals the trimmed inputs joined with blank
      lines. */
  lemma CombinedJoin(ps: seq<string>)
    requires forall k :: 0 <= k < |ps| ==> Trim(ps[k]) != ""
    ensures Join(Combined(ps), "\n\n") == Join(TrimAll(ps), "\n\n")
  {
    CombineAllJoin(ps);
  }

  // ---------------------------------------------------------------------------
  // createOverlappingSegments

  /** A piece of a paragraph and its number. `None` stands for the
      `undefined` (or `NaN`) number of a call made without a depth. */
  datatype Segment = Segment(content: string, segment: Option<int>)

  /** `depth + 1`, where `undefined + 1` is `NaN`. */
  function Inc(depth: Option<int>): Option<int> {
    match depth
    case Some(d) => Some(d + 1)
    case None => None
  }

  /** Sentences `i` up to `j`, joined and trimmed. */
  function Window(sentences: seq<string>, i: nat, j: nat): string
    requires i <= j <= |sentences|
  {
    Trim(Concat(sentences[i..j]))
  }

  /** The same segments with every number replaced by `depth`. */
  function Renumber(segments: seq<Segment>, depth: Option<int>): (r: seq<Segment>)
    ensures |r| == |segments|
    ensures forall k :: 0 <= k < |r| ==> r[k] == Segment(segments[k].content, depth)
  {
    seq(|segments|, k requires 0 <= k < |segments| => Segment(segments[k].content, depth))
  }

  /** A window that leaves out at least one sentence is shorter than the
      paragraph the sentences came from. */
  lemma WindowShorter(paragraph: string, i: nat, j: nat)
    requires |SplitIntoSentences(paragraph)| > 1
    requires i <= j <= |SplitIntoSentences(paragraph)| && (0 < i || j < |SplitIntoSentences(paragraph)|)
    ensures |Window(SplitIntoSentences(paragraph), i, j)| < |paragraph|
  {
    var s := SplitIntoSentences(paragraph);
    assert s == Scan(paragraph);
    ScanShapes(paragraph);
    assert s == s[..i] + s[i..j] + s[j..];
    ConcatSplit(s[..i] + s[i..j], s[j..]);
    ConcatSplit(s[..i], s[i..j]);
    if 0 < i {
      assert SentenceShape(s[..i][0]);
      ConcatLength(s[..i], 0);
    } else {
      assert SentenceShape(s[j..][0]);
      ConcatLength(s[j..], 0);
    }
  }

  /** A paragraph that is cut into halves: too long, with more than one
      sentence. */
  predicate Splits(paragraph: string) {
    |paragraph| > MaxSegmentLength && |SplitIntoSentences(paragraph)| > 1
  }

  /** The halves of a paragraph with more than four sentences: sentences
      `[0, mid + 1)` and `[mid - 1, n)` where `mid = floor(n / 2)`. */
  function FirstHalf(paragraph: string): (w: string)
    requires Splits(paragraph) && |SplitIntoSentences(paragraph)| > 4
    ensures |w| < |paragraph|
  {
    var s := SplitIntoSentences(paragraph);
    assert 0 < |s| / 2 + 1 < |s|;
    WindowShorter(paragraph, 0, |s| / 2 + 1);
    Window(s, 0, |s| / 2 + 1)
  }

  function SecondHalf(paragraph: string): (w: string)
    requires Splits(paragraph) && |SplitIntoSentences(paragraph)| > 4
    ensures |w| < |paragraph|
  {
    var s := SplitIntoSentences(paragraph);
    assert 0 < |s| / 2 - 1 < |s|;
    WindowShorter(paragraph, |s| / 2 - 1, |s|);
    Window(s, |s| / 2 - 1, |s|)
  }

  /** The halves of a paragraph with two to four sentences: the first
      `ceil(n / 2)` sentences and the sentences from `floor(n / 2)` on. */
  function FewFirstHalf(paragraph: string): (w: string)
    requires Splits(paragraph) && |SplitIntoSentences(paragraph)| <= 4
    ensures |w| < |paragraph|
  {
    var s := SplitIntoSentences(paragraph);
    assert 0 < (|s| + 1) / 2 < |s|;
    WindowShorter(paragraph, 0, (|s| + 1) / 2);
    Window(s, 0, (|s| + 1) / 2)
  }

  function FewSecondHalf(paragraph: string): (w: string)
    requires Splits(paragraph) && |SplitIntoSentences(paragraph)| <= 4
    ensures |w| < |paragraph|
  {
    var s := SplitIntoSentences(paragraph);
    assert 0 < |s| / 2 < |s|;
    WindowShorter(paragraph, |s| / 2, |s|);
    Window(s, |s| / 2, |s|)
  }

  /** `createOverlappingSegments(paragraph, depth)`. */
  function CreateOverlappingSegments(paragraph: string, depth: Option<int>): seq<Segment>
    decreases |paragraph|, 1
  {
    if !Splits(paragraph) then [Segment(paragraph, depth)]
    else if |SplitIntoSentences(paragraph)| > 4 then
      FirstHalfSegments(paragraph, depth) + SecondHalfSegments(paragraph, depth)
    else
      [Segment(FewFirstHalf(paragraph), depth), Segment(FewSecondHalf(paragraph), Inc(depth))]
  }

  /** The first half: cut further, one level deeper, when too long. */
  function FirstHalfSegments(paragraph: string, depth: Option<int>): seq<Segment>
    requires Splits(paragraph) && |SplitIntoSentences(paragraph)| > 4
    decreases |paragraph|, 0
  {
    var w := FirstHalf(paragraph);
    if |w| > MaxSegmentLength then CreateOverlappingSegments(w, Inc(depth))
    else [Segment(w, depth)]
  }

  /** The second half: cut further when too long, by a call without a
      depth, and every resulting segment renumbered `depth + 1`. */
  function SecondHalfSegments(paragraph: string, depth: Option<int>): seq<Segment>
    requires Splits(paragraph) && |SplitIntoSentences(paragraph)| > 4
    decreases |paragraph|, 0
  {
    var w := SecondHalf(paragraph);
    if |w| > MaxSegmentLength then Renumber(CreateOverlappingSegments(w, None), Inc(depth))
    else [Segment(w, Inc(depth))]
  }

  /** Every call returns at least one segment. */
  lemma {:induction false} AtLeastOneSegment(paragraph: string, depth: Option<int>)
    ensures |CreateOverlappingSegments(paragraph, depth)| >= 1
    decreases |paragraph|, 1
  {
    if Splits(paragraph) && |SplitIntoSentences(paragraph)| > 4 {
      SecondHalfNotEmpty(paragraph, depth);
    }
  }

  lemma SecondHalfNotEmpty(paragraph: string, depth: Option<int>)
    requires Splits(paragraph) && |SplitIntoSentences(paragraph)| > 4
    ensures |SecondHalfSegments(paragraph, depth)| >= 1
    decreases |paragraph|, 0
  {
    var w := SecondHalf(paragraph);
    if |w| > MaxSegmentLength {
      AtLeastOneSegment(w, None);
    }
  }

  /** The contents of a list of segments. */
  function Contents(segments: seq<Segment>): (r: seq<string>)
    ensures |r| == |segments|
    ensures forall k :: 0 <= k < |r| ==> r[k] == segments[k].content
  {
    seq(|segments|, k requires 0 <= k < |segments| => segments[k].content)
  }

  lemma ContentsAppend(a: seq<Segment>, b: seq<Segment>)
    ensures Contents(a + b) == Contents(a) + Contents(b)
  {
  }

  /** A paragraph comes back whole exactly when it is at most
      `MaxSegmentLength` long or has a single sentence (the sentence
      splitter's fallback counts as one). */
  lemma WholeParagraphIff(paragraph: string, depth: Option<int>)
    ensures var r := CreateOverlappingSegments(paragraph, depth);
            |r| == 1 <==> (|paragraph| <= MaxSegmentLength || |SplitIntoSentences(paragraph)| <= 1)
    ensures var r := CreateOverlappingSegments(paragraph, depth);
            (|paragraph| <= MaxSegmentLength || |SplitIntoSentences(paragraph)| <= 1) ==> r == [Segment(paragraph, depth)]
  {
    if Splits(paragraph) && |SplitIntoSentences(paragraph)| > 4 {
      SecondHalfNotEmpty(paragraph, depth);
      FirstHalfNotEmpty(paragraph, depth);
    }
  }

  lemma FirstHalfNotEmpty(paragraph: string, depth: Option<int>)
    requires Splits(paragraph) && |SplitIntoSentences(paragraph)| > 4
    ensures |FirstHalfSegments(paragraph, depth)| >= 1
  {
    var w := FirstHalf(paragraph);
    if |w| > MaxSegmentLength {
      AtLeastOneSegment(w, Inc(depth));
    }
  }

  /** Two to four sentences give exactly two segments numbered `depth` and
      `depth + 1`: the first takes the first half of the sentences rounded
      up, the second starts at the half rounded down, so they share the
      middle sentence exactly when the count is odd and together cover all
      sentences. */
  lemma FewSentencesHalves(paragraph: string, depth: Option<int>)
    requires |paragraph| > MaxSegmentLength
    requires 2 <= |SplitIntoSentences(paragraph)| <= 4
    ensures var s := SplitIntoSentences(paragraph);
            var n := |s|;
            CreateOverlappingSegments(paragraph, depth) ==
              [Segment(Window(s, 0, (n + 1) / 2), depth), Segment(Window(s, n / 2, n), Inc(depth))] &&
            (n + 1) / 2 - n / 2 == n % 2 && s[..(n + 1) / 2] + s[(n + 1) / 2..] == s
  {
    var s := SplitIntoSentences(paragraph);
    var n := |s|;
    assert Splits(paragraph);
    assert FewFirstHalf(paragraph) == Window(s, 0, (n + 1) / 2);
    assert FewSecondHalf(paragraph) == Window(s, n / 2, n);
    assert n == 2 || n == 3 || n == 4;
    SplitAt(s, (n + 1) / 2);
  }

  lemma SplitAt<T>(s: seq<T>, h: nat)
    requires h <= |s|
    ensures s[..h] + s[h..] == s
  {
  }

  /** More than four sentences: the halves are sentences `[0, mid + 1)` and
      `[mid - 1, n)`, which share exactly sentences `mid - 1` and `mid`. */
  lemma ManySentencesHalves(paragraph: string, depth: Option<int>)
    requires |paragraph| > MaxSegmentLength
    requires |SplitIntoSentences(paragraph)| > 4
    ensures var s := SplitIntoSentences(paragraph);
            var n := |s|;
            var mid := n / 2;
            FirstHalf(paragraph) == Window(s, 0, mid + 1) &&
            SecondHalf(paragraph) == Window(s, mid - 1, n) &&
            s[..mid + 1][mid - 1..] == s[mid - 1..][..2] == [s[mid - 1], s[mid]]
  {
  }

  /** More than four sentences: the first half's segments come first, then
      at least one segment of the second half, each numbered `depth + 1`
      whatever number the recursive call gave it. */
  lemma ManySentencesSegments(paragraph: string, depth: Option<int>)
    requires |paragraph| > MaxSegmentLength
    requires |SplitIntoSentences(paragraph)| > 4
    ensures var r := CreateOverlappingSegments(paragraph, depth);
            var first := FirstHalfSegments(paragraph, depth);
            var second := SecondHalfSegments(paragraph, depth);
            r == first + second && |second| >= 1 &&
            (forall k :: 0 <= k < |second| ==> second[k].segment == Inc(depth)) &&
            Contents(second) ==
              (if |SecondHalf(paragraph)| > MaxSegmentLength
               then Contents(CreateOverlappingSegments(SecondHalf(paragraph), None))
               else [SecondHalf(paragraph)])
  {
    SecondHalfNotEmpty(paragraph, depth);
  }

  /** The contents do not depend on the depth. */
  lemma {:induction false} ContentsIndependentOfDepth(paragraph: string, d1: Option<int>, d2: Option<int>)
    ensures Contents(CreateOverlappingSegments(paragraph, d1)) == Contents(CreateOverlappingSegments(paragraph, d2))
    decreases |paragraph|, 1
  {
    if Splits(paragraph) && |SplitIntoSentences(paragraph)| > 4 {
      FirstHalfContents(paragraph, d1, d2);
      ContentsAppend(FirstHalfSegments(paragraph, d1), SecondHalfSegments(paragraph, d1));
      ContentsAppend(FirstHalfSegments(paragraph, d2), SecondHalfSegments(paragraph, d2));
    }
  }

  lemma FirstHalfContents(paragraph: string, d1: Option<int>, d2: Option<int>)
    requires Splits(paragraph) && |SplitIntoSentences(paragraph)| > 4
    ensures Contents(FirstHalfSegments(paragraph, d1)) == Contents(FirstHalfSegments(paragraph, d2))
    ensures Contents(SecondHalfSegments(paragraph, d1)) == Contents(SecondHalfSegments(paragraph, d2))
    decreases |paragraph|, 0
  {
    var w := FirstHalf(paragraph);
    if |w| > MaxSegmentLength {
      ContentsIndependentOfDepth(w, Inc(d1), Inc(d2));
    }
    SecondHalfContents(paragraph, d1, d2);
  }

  /** The second half is cut without a depth, so its contents never depend
      on it. */
  lemma SecondHalfContents(paragraph: string, d1: Option<int>, d2: Option<int>)
    requires Splits(paragraph) && |SplitIntoSentences(paragraph)| > 4
    ensures Contents(SecondHalfSegments(paragraph, d1)) == Contents(SecondHalfSegments(paragraph, d2))
  {
    var w := SecondHalf(paragraph);
    if |w| > MaxSegmentLength {
      var r := CreateOverlappingSegments(w, None);
      RenumberContents(r, Inc(d1), Inc(d2));
    }
  }

  lemma RenumberContents(r: seq<Segment>, d1: Option<int>, d2: Option<int>)
    ensures Contents(Renumber(r, d1)) == Contents(Renumber(r, d2))
  {
    var a := Renumber(r, d1);
    var b := Renumber(r, d2);
    assert forall k :: 0 <= k < |a| ==> a[k].content == b[k].content;
  }

  /** Every segment numbered at or above `depth` when it is a number, and
      none numbered when it is not. */
  predicate NumberedFrom(r: seq<Segment>, depth: Option<int>) {
    forall k :: 0 <= k < |r| ==>
      r[k].segment.Some? == depth.Some? && (depth.Some? ==> r[k].segment.value >= depth.value)
  }

  /** A call with a number numbers every segment at or above it; a call
      without one numbers none. */
  lemma {:induction false} NumbersFromDepth(paragraph: string, depth: Option<int>)
    ensures NumberedFrom(CreateOverlappingSegments(paragraph, depth), depth)
    decreases |paragraph|, 1
  {
    if Splits(paragraph) && |SplitIntoSentences(paragraph)| > 4 {
      HalvesNumberedFrom(paragraph, depth);
      NumberedFromAppend(FirstHalfSegments(paragraph, depth), SecondHalfSegments(paragraph, depth), depth);
    }
  }

  lemma NumberedFromAppend(a: seq<Segment>, b: seq<Segment>, depth: Option<int>)
    requires NumberedFrom(a, depth) && NumberedFrom(b, depth)
    ensures NumberedFrom(a + b, depth)
  {
    assert forall k :: 0 <= k < |a + b| ==> (a + b)[k] == if k < |a| then a[k] else b[k - |a|];
  }

  lemma HalvesNumberedFrom(paragraph: string, depth: Option<int>)
    requires Splits(paragraph) && |SplitIntoSentences(paragraph)| > 4
    ensures NumberedFrom(FirstHalfSegments(paragraph, depth), depth)
    ensures NumberedFrom(SecondHalfSegments(paragraph, depth), depth)
    decreases |paragraph|, 0
  {
    var w := FirstHalf(paragraph);
    if |w| > MaxSegmentLength {
      NumbersFromDepth(w, Inc(depth));
      DeeperNumberedFrom(CreateOverlappingSegments(w, Inc(depth)), depth);
    }
    SecondHalfNumbered(paragraph, depth);
    DeeperNumberedFrom(SecondHalfSegments(paragraph, depth), depth);
  }

  /** Numbered from `depth + 1` is numbered from `depth`. */
  lemma DeeperNumberedFrom(r: seq<Segment>, depth: Option<int>)
    requires NumberedFrom(r, Inc(depth))
    ensures NumberedFrom(r, depth)
  {
  }

  lemma SecondHalfNumbered(paragraph: string, depth: Option<int>)
    requires Splits(paragraph) && |SplitIntoSentences(paragraph)| > 4
    ensures NumberedFrom(SecondHalfSegments(paragraph, depth), Inc(depth))
  {
  }

  /** Every segment is at most `len` long. */
  predicate ContentsAtMost(r: seq<Segment>, len: int) {
    forall k :: 0 <= k < |r| ==> |r[k].content| <= len
  }

  /** No segment is longer than the paragraph, and once a paragraph is
      split every segment is shorter than it. */
  lemma {:induction false} SegmentsShorter(paragraph: string, depth: Option<int>)
    ensures ContentsAtMost(CreateOverlappingSegments(paragraph, depth), |paragraph|)
    ensures Splits(paragraph) ==> ContentsAtMost(CreateOverlappingSegments(paragraph, depth), |paragraph| - 1)
    decreases |paragraph|, 1
  {
    if !Splits(paragraph) {
    } else if |SplitIntoSentences(paragraph)| > 4 {
      FirstHalfShorter(paragraph, depth);
      SecondHalfShorter(paragraph, depth);
      ContentsAtMostAppend(FirstHalfSegments(paragraph, depth), SecondHalfSegments(paragraph, depth), |paragraph| - 1);
    } else {
      FewHalvesShorter(paragraph, depth);
    }
  }

  lemma FewHalvesShorter(paragraph: string, depth: Option<int>)
    requires Splits(paragraph) && |SplitIntoSentences(paragraph)| <= 4
    ensures ContentsAtMost(CreateOverlappingSegments(paragraph, depth), |paragraph| - 1)
  {
    var r := CreateOverlappingSegments(paragraph, depth);
    assert r == [Segment(FewFirstHalf(paragraph), depth), Segment(FewSecondHalf(paragraph), Inc(depth))];
  }

  lemma ContentsAtMostAppend(a: seq<Segment>, b: seq<Segment>, len: int)
    requires ContentsAtMost(a, len) && ContentsAtMost(b, len)
    ensures ContentsAtMost(a + b, len)
  {
    assert forall k :: 0 <= k < |a + b| ==> (a + b)[k] == if k < |a| then a[k] else b[k - |a|];
  }

  lemma FirstHalfShorter(paragraph: string, depth: Option<int>)
    requires Splits(paragraph) && |SplitIntoSentences(paragraph)| > 4
    ensures ContentsAtMost(FirstHalfSegments(paragraph, depth), |paragraph| - 1)
    decreases |paragraph|, 0
  {
    var w := FirstHalf(paragraph);
    if |w| > MaxSegmentLength {
      SegmentsShorter(w, Inc(depth));
    }
  }

  lemma SecondHalfShorter(paragraph: string, depth: Option<int>)
    requires Splits(paragraph) && |SplitIntoSentences(paragraph)| > 4
    ensures ContentsAtMost(SecondHalfSegments(paragraph, depth), |paragraph| - 1)
    decreases |paragraph|, 0
  {
    var v := SecondHalf(paragraph);
    if |v| > MaxSegmentLength {
      SegmentsShorter(v, None);
      var r := CreateOverlappingSegments(v, None);
      assert forall k :: 0 <= k < |r| ==> Renumber(r, Inc(depth))[k].content == r[k].content;
    }
  }

  // ---------------------------------------------------------------------------
  // processArticles

  datatype Article = Article(url: string, title: string, content: string)

  /** A stored segment record. */
  datatype SegmentRecord = SegmentRecord(url: string, title: string, content: string, segment: nat)

  /** The pieces that are not blank (`filter(p => p.trim())`), in order. */
  function NonBlank(ps: seq<string>): (r: seq<string>)
    ensures |r| <= |ps|
    ensures forall k :: 0 <= k < |r| ==> Trim(r[k]) != ""
  {
    if ps == [] then []
    else NonBlank(ps[..|ps| - 1]) + (if Trim(ps[|ps| - 1]) != "" then [ps[|ps| - 1]] else [])
  }

  /** The article's paragraphs: the blank-line split without blank pieces. */
  function ArticleParagraphs(content: string): seq<string> {
    NonBlank(SplitBlankLines(content))
  }

  /** The texts one combined paragraph contributes: its trimmed form, cut
      into segments when longer than `MaxSegmentLength`. */
  function ParagraphTexts(paragraph: string): (r: seq<string>)
    ensures |r| >= 1
  {
    var clean := Trim(paragraph);
    AtLeastOneSegment(clean, Some(0));
    if |clean| > MaxSegmentLength then Contents(CreateOverlappingSegments(clean, Some(0)))
    else [clean]
  }

  /** The texts of a sequence of paragraphs, in order. */
  function AllTexts(paragraphs: seq<string>): seq<string> {
    if paragraphs == [] then []
    else AllTexts(paragraphs[..|paragraphs| - 1]) + ParagraphTexts(paragraphs[|paragraphs| - 1])
  }

  lemma AllTextsStep(paragraphs: seq<string>, i: nat)
    requires i < |paragraphs|
    ensures AllTexts(paragraphs[..i + 1]) == AllTexts(paragraphs[..i]) + ParagraphTexts(paragraphs[i])
  {
    assert paragraphs[..i + 1][..i] == paragraphs[..i];
  }

  /** Every text an article yields, in emission order. */
  function ArticleTexts(article: Article): seq<string> {
    AllTexts(Combined(ArticleParagraphs(article.content)))
  }

  /** Texts numbered `first`, `first + 1`, ... with a URL and a title. */
  function NumberRecords(url: string, title: string, texts: seq<string>, first: int): (r: seq<SegmentRecord>)
    requires first >= 0
    ensures |r| == |texts|
    ensures forall k :: 0 <= k < |r| ==> r[k] == SegmentRecord(url, title, texts[k], first + k)
  {
    seq(|texts|, k requires 0 <= k < |texts| => SegmentRecord(url, title, texts[k], first + k))
  }

  lemma NumberRecordsAppend(url: string, title: string, a: seq<string>, b: seq<string>, first: nat)
    ensures NumberRecords(url, title, a + b, first) ==
            NumberRecords(url, title, a, first) + NumberRecords(url, title, b, first + |a|)
  {
  }

  /** Records numbered from 1 followed by records numbered on from there
      are the records of all the texts numbered from 1. */
  lemma NumberRecordsExtend(url: string, title: string, a: seq<string>, b: seq<string>,
                            records: seq<SegmentRecord>, emitted: seq<SegmentRecord>)
    requires records == NumberRecords(url, title, a, 1)
    requires emitted == NumberRecords(url, title, b, |records| + 1)
    ensures records + emitted == NumberRecords(url, title, a + b, 1)
  {
    NumberRecordsAppend(url, title, a, b, 1);
  }

  /** The records of one article: its texts numbered 1, 2, 3, ... with the
      article's URL and title. */
  function ArticleRecords(article: Article): seq<SegmentRecord> {
    NumberRecords(article.url, article.title, ArticleTexts(article), 1)
  }

  /** The records of all articles, article by article. */
  function AllRecords(articles: seq<Article>): seq<SegmentRecord> {
    FlatMap(articles, ArticleRecords)
  }

  /** Processing two lists of articles one after the other gives the
      records of the joined list: each article is processed on its own. */
  lemma AllRecordsAppend(a: seq<Article>, b: seq<Article>)
    ensures AllRecords(a + b) == AllRecords(a) + AllRecords(b)
  {
    FlatMapAppend(a, b, ArticleRecords);
  }

  /** The records one combined paragraph yields, numbered from
      `currentSegment`, and the counter after them: a long paragraph is cut
      into segments, each numbered by the counter whatever number the
      segmenter gave it. */
  method EmitParagraph(url: string, title: string, paragraph: string, currentSegment: nat)
    returns (emitted: seq<SegmentRecord>, nextSegment: nat)
    ensures emitted == NumberRecords(url, title, ParagraphTexts(paragraph), currentSegment)
    ensures nextSegment == currentSegment + |emitted|
  {
    var cleanParagraph := Trim(paragraph);
    if |cleanParagraph| > MaxSegmentLength {
      var segments := CreateOverlappingSegments(cleanParagraph, Some(currentSegment));
      ContentsIndependentOfDepth(cleanParagraph, Some(currentSegment), Some(0));
      emitted, nextSegment := EmitSegments(url, title, segments, currentSegment);
    } else {
      emitted := [SegmentRecord(url, title, cleanParagraph, currentSegment)];
      nextSegment := currentSegment + 1;
    }
  }

  /** The loop over a long paragraph's segments: each becomes a record
      numbered by the counter, which the loop advances. */
  method EmitSegments(url: string, title: string, segments: seq<Segment>, currentSegment: nat)
    returns (emitted: seq<SegmentRecord>, nextSegment: nat)
    ensures emitted == NumberRecords(url, title, Contents(segments), currentSegment)
    ensures nextSegment == currentSegment + |segments|
  {
    emitted := [];
    nextSegment := currentSegment;
    var texts := Contents(segments);
    for j := 0 to |segments|
      invariant nextSegment == currentSegment + j
      invariant emitted == NumberRecords(url, title, texts[..j], currentSegment)
    {
      assert texts[..j + 1] == texts[..j] + [segments[j].content];
      NumberRecordsAppend(url, title, texts[..j], [segments[j].content], currentSegment);
      emitted := emitted + [SegmentRecord(url, title, segments[j].content, nextSegment)];
      nextSegment := nextSegment + 1;
    }
    assert texts[..|segments|] == texts;
  }

  /** The per-article part of `processArticles`: split, combine, then
      number every emitted piece with a counter that starts at 1 and counts
      up across the whole article. */
  method ProcessArticle(article: Article) returns (records: seq<SegmentRecord>)
    ensures records == ArticleRecords(article)
  {
    var paragraphs := ArticleParagraphs(article.content);
    var combined := CombineShortParagraphs(paragraphs);
    records := EmitParagraphs(article.url, article.title, combined);
  }

  /** The loop over an article's combined paragraphs, with the counter
      starting at 1. */
  method EmitParagraphs(url: string, title: string, combined: seq<string>) returns (records: seq<SegmentRecord>)
    ensures records == NumberRecords(url, title, AllTexts(combined), 1)
  {
    records := [];
    var currentSegment := 1;
    for i := 0 to |combined|
      invariant currentSegment == |records| + 1
      invariant records == NumberRecords(url, title, AllTexts(combined[..i]), 1)
    {
      var emitted;
      emitted, currentSegment := EmitParagraph(url, title, combined[i], currentSegment);
      AllTextsStep(combined, i);
      NumberRecordsExtend(url, title, AllTexts(combined[..i]), ParagraphTexts(combined[i]), records, emitted);
      records := records + emitted;
    }
    assert combined[..|combined|] == combined;
  }

  /** `processArticles`: the records of every article, in order. */
  method ProcessArticles(articles: seq<Article>) returns (processedContent: seq<SegmentRecord>)
    ensures processedContent == AllRecords(articles)
  {
    processedContent := [];
    for i := 0 to |articles|
      invariant processedContent == AllRecords(articles[..i])
    {
      FlatMapStep(articles, i, ArticleRecords);
      var records := ProcessArticle(articles[i]);
      processedContent := processedContent + records;
    }
    assert articles[..|articles|] == articles;
  }
}
