/** The paragraph analysis script: every article's text is split at blank
    lines, each non-empty trimmed piece is recorded with its position in
    the split, and the 50 longest are kept, longest first. Reading the file
    and printing the report are not part of this model. */
module ParagraphAnalysis {
  import opened Text
  import opened BlankLines
  import opened StableSort

  const TopCount := 50

  datatype Article = Article(title: string, url: string, content: string)

  datatype ParagraphInfo = ParagraphInfo(length: nat, text: string, articleTitle: string, articleUrl: string,
                                         paragraphIndex: nat)

  /** The record pushed for the piece at `index`, when its trimmed text is
      not empty. */
  function Recorded(a: Article, piece: string, index: nat): seq<ParagraphInfo> {
    var clean := Trim(piece);
    if |clean| > 0 then [ParagraphInfo(|clean|, clean, a.title, a.url, index)] else []
  }

  /** The records of the pieces of one article, in order. */
  function Collected(a: Article, pieces: seq<string>): seq<ParagraphInfo> {
    if pieces == [] then []
    else Collected(a, pieces[..|pieces| - 1]) + Recorded(a, pieces[|pieces| - 1], |pieces| - 1)
  }

  /** The records of all articles, in order. */
  function AllParagraphs(articles: seq<Article>): seq<ParagraphInfo> {
    if articles == [] then []
    else
      var a := articles[|articles| - 1];
      AllParagraphs(articles[..|articles| - 1]) + Collected(a, SplitBlankLines(a.content))
  }

  function ParagraphLength(p: ParagraphInfo): real {
    p.length as real
  }

  lemma CollectedSnoc(a: Article, pieces: seq<string>)
    requires pieces != []
    ensures Collected(a, pieces) ==
            Collected(a, pieces[..|pieces| - 1]) + Recorded(a, pieces[|pieces| - 1], |pieces| - 1)
  {
  }

  /** The records of an article are in increasing order of their position
      in the raw split, every position being one of the split's. */
  lemma {:induction false} CollectedIndices(a: Article, pieces: seq<string>)
    ensures forall k :: 0 <= k < |Collected(a, pieces)| ==> Collected(a, pieces)[k].paragraphIndex < |pieces|
    ensures forall k, l :: 0 <= k < l < |Collected(a, pieces)| ==>
              Collected(a, pieces)[k].paragraphIndex < Collected(a, pieces)[l].paragraphIndex
  {
    if pieces != [] {
      var n := |pieces| - 1;
      var before := Collected(a, pieces[..n]);
      var c := Collected(a, pieces);
      CollectedIndices(a, pieces[..n]);
      CollectedSnoc(a, pieces);
      assert forall k :: 0 <= k < |before| ==> c[k] == before[k];
      assert forall k :: |before| <= k < |c| ==> c[k].paragraphIndex == n;
    }
  }

  /** Each record holds the trimmed, non-empty text of the piece at its
      position, its length, and its article's title and URL. */
  lemma {:induction false} CollectedEntries(a: Article, pieces: seq<string>)
    ensures forall k :: 0 <= k < |Collected(a, pieces)| ==>
              var r := Collected(a, pieces)[k];
              r.paragraphIndex < |pieces| && r.text == Trim(pieces[r.paragraphIndex]) &&
              r.length == |r.text| > 0 && r.articleTitle == a.title && r.articleUrl == a.url
  {
    if pieces != [] {
      var n := |pieces| - 1;
      var init := pieces[..n];
      var before := Collected(a, init);
      var c := Collected(a, pieces);
      CollectedEntries(a, init);
      CollectedSnoc(a, pieces);
      forall k | 0 <= k < |before|
        ensures c[k] == before[k] && init[before[k].paragraphIndex] == pieces[before[k].paragraphIndex]
      {
      }
    }
  }

  /** Every piece whose trimmed text is not empty has a record, at its
      raw position: empty pieces still take a position. */
  lemma {:induction false} CollectedComplete(a: Article, pieces: seq<string>, i: nat) returns (k: nat)
    requires i < |pieces| && |Trim(pieces[i])| > 0
    ensures k < |Collected(a, pieces)| && Collected(a, pieces)[k].paragraphIndex == i
  {
    var n := |pieces| - 1;
    var init := pieces[..n];
    var before := Collected(a, init);
    var last := Recorded(a, pieces[n], n);
    CollectedSnoc(a, pieces);
    assert Collected(a, pieces) == before + last;
    if i < n {
      assert init[i] == pieces[i];
      k := CollectedComplete(a, init, i);
      assert Collected(a, pieces)[k] == before[k];
    } else {
      assert |last| == 1 && last[0].paragraphIndex == n;
      k := |before|;
      assert Collected(a, pieces)[k] == last[0];
    }
  }

  lemma CollectedStep(a: Article, pieces: seq<string>, j: nat)
    requires j < |pieces|
    ensures Collected(a, pieces[..j + 1]) == Collected(a, pieces[..j]) + Recorded(a, pieces[j], j)
  {
    assert pieces[..j + 1][..j] == pieces[..j];
    CollectedSnoc(a, pieces[..j + 1]);
  }

  /** One iteration of the inner loop extends the records by those of the
      next piece. */
  lemma PushStep(a: Article, pieces: seq<string>, j: nat, base: seq<ParagraphInfo>, pushed: seq<ParagraphInfo>)
    requires j < |pieces| && pushed == base + Collected(a, pieces[..j])
    ensures pushed + Recorded(a, pieces[j], j) == base + Collected(a, pieces[..j + 1])
  {
    CollectedStep(a, pieces, j);
  }

  lemma AllParagraphsSnoc(articles: seq<Article>)
    requires articles != []
    ensures var a := articles[|articles| - 1];
            AllParagraphs(articles) == AllParagraphs(articles[..|articles| - 1]) + Collected(a, SplitBlankLines(a.content))
  {
  }

  /** The inner `forEach` over one article's pieces: trim each piece and
      push a record for each non-empty one. */
  method CollectArticle(article: Article, paragraphs: seq<string>, allParagraphs: seq<ParagraphInfo>)
    returns (pushed: seq<ParagraphInfo>)
    ensures pushed == allParagraphs + Collected(article, paragraphs)
  {
    pushed := allParagraphs;
    for paragraphIndex := 0 to |paragraphs|
      invariant pushed == allParagraphs + Collected(article, paragraphs[..paragraphIndex])
    {
      PushStep(article, paragraphs, paragraphIndex, allParagraphs, pushed);
      var cleanParagraph := Trim(paragraphs[paragraphIndex]);
      if |cleanParagraph| > 0 {
        pushed := pushed + [ParagraphInfo(|cleanParagraph|, cleanParagraph, article.title, article.url, paragraphIndex)];
      } else {
        assert pushed + Recorded(article, paragraphs[paragraphIndex], paragraphIndex) == pushed;
      }
    }
    assert paragraphs[..|paragraphs|] == paragraphs;
  }

  /** The outer `forEach` over the articles. */
  method CollectParagraphs(articles: seq<Article>) returns (allParagraphs: seq<ParagraphInfo>)
    ensures allParagraphs == AllParagraphs(articles)
  {
    allParagraphs := [];
    for articleIndex := 0 to |articles|
      invariant allParagraphs == AllParagraphs(articles[..articleIndex])
    {
      var paragraphs := SplitBlankLines(articles[articleIndex].content);
      allParagraphs := CollectArticle(articles[articleIndex], paragraphs, allParagraphs);
      assert articles[..articleIndex + 1][..articleIndex] == articles[..articleIndex];
      AllParagraphsSnoc(articles[..articleIndex + 1]);
    }
    assert articles[..|articles|] == articles;
  }

  /** `analyzeParagraphs` without the report: collect, sort by length
      (longest first, ties in collection order) and keep the first 50. */
  method AnalyzeParagraphs(articles: seq<Article>) returns (top: seq<ParagraphInfo>)
    ensures top == Take(SortDesc(AllParagraphs(articles), ParagraphLength), TopCount)
  {
    var allParagraphs := CollectParagraphs(articles);
    var sorted := SortDesc(allParagraphs, ParagraphLength);
    top := Take(sorted, TopCount);
  }

  /** The report holds at most 50 records, longest first; together with the
      records left out it is exactly the collected records, and no record
      left out is longer than one kept. */
  lemma TopParagraphs(all: seq<ParagraphInfo>)
    ensures var sorted := SortDesc(all, ParagraphLength);
            var top := Take(sorted, TopCount);
            |top| == (if |all| <= TopCount then |all| else TopCount) &&
            SortedDesc(top, ParagraphLength) &&
            multiset(top) + multiset(sorted[|top|..]) == multiset(all) &&
            (forall p, q :: p in top && q in sorted[|top|..] ==> p.length >= q.length)
  {
    var sorted := SortDesc(all, ParagraphLength);
    var top := Take(sorted, TopCount);
    TakeOfSortedIsTop(all, ParagraphLength, TopCount);
    forall p, q | p in top && q in sorted[|top|..]
      ensures p.length >= q.length
    {
      assert ParagraphLength(p) >= ParagraphLength(q);
    }
  }

  /** Records of equal length keep their collection order in the report:
      the kept records of any one length are the first of the collected
      records of that length, in collection order, so the cut at 50 drops
      the later ones of a tied length. */
  lemma TopParagraphsStable(all: seq<ParagraphInfo>, v: real)
    ensures var tied := WithKey(all, ParagraphLength, v);
            var kept := WithKey(Take(SortDesc(all, ParagraphLength), TopCount), ParagraphLength, v);
            |kept| <= |tied| && kept == tied[..|kept|]
  {
    var sorted := SortDesc(all, ParagraphLength);
    SortDescStable(all, ParagraphLength, v);
    var top := Take(sorted, TopCount);
    assert sorted == top + sorted[|top|..];
    WithKeyAppend(top, sorted[|top|..], ParagraphLength, v);
  }
}
