/** The reference handling and prompt text of the Node chat service
    (`aiService.js`): rewriting `[N]` markers into segment URLs, dating a
    blog URL through the JavaScript `Date` constructor, numbering context
    blocks and laying out the user prompt. The current date is a parameter. */
module ServerAiService {
  import opened Text
  import opened Markers
  import opened DatePath
  import ContextFusion
  import PromptAssembly

  type SegmentRow = ContextFusion.SegmentRow

  // ---------------------------------------------------------------------------
  // Reference markers

  /** The URL a token resolves to: a marker `[N]` with `1 <= N <= |segments|`
      names `segments[N - 1]`; anything else, `[0]` included, names nothing. */
  function MarkerUrl(t: Token, segments: seq<SegmentRow>): (u: Option<string>)
    ensures u.Some? <==> t.Marker? && AllDigits(t.digits) && 1 <= DigitsValue(t.digits) <= |segments|
  {
    if t.Marker? && AllDigits(t.digits) && 1 <= DigitsValue(t.digits) <= |segments| then
      Some(segments[DigitsValue(t.digits) - 1].url)
    else None
  }

  /** The URLs resolved by the markers of `ts` (the `seenUrls` set after
      reading `ts`). */
  function SeenUrls(ts: seq<Token>, segments: seq<SegmentRow>): set<string> {
    if ts == [] then {}
    else
      SeenUrls(ts[..|ts| - 1], segments) +
      (match MarkerUrl(ts[|ts| - 1], segments) case Some(u) => {u} case None => {})
  }

  /** What one token becomes, given the URLs already produced. */
  function Replacement(t: Token, seen: set<string>, segments: seq<SegmentRow>): string {
    match t
    case Plain(c) => [c]
    case Marker(_) =>
      match MarkerUrl(t, segments)
      case None => ""
      case Some(u) => if u in seen then "" else "[" + u + "]"
  }

  /** The text after every marker of `ts` has been replaced, left to right. */
  function Rewritten(ts: seq<Token>, segments: seq<SegmentRow>): string {
    if ts == [] then ""
    else
      var init := ts[..|ts| - 1];
      Rewritten(init, segments) + Replacement(ts[|ts| - 1], SeenUrls(init, segments), segments)
  }

  /** The URLs written out, in the order they were written. */
  function Emitted(ts: seq<Token>, segments: seq<SegmentRow>): seq<string> {
    if ts == [] then []
    else
      var init := ts[..|ts| - 1];
      match MarkerUrl(ts[|ts| - 1], segments)
      case Some(u) => Emitted(init, segments) + (if u in SeenUrls(init, segments) then [] else [u])
      case None => Emitted(init, segments)
  }

  /** The URLs a token adds to the set of those produced. */
  function NewlySeen(t: Token, segments: seq<SegmentRow>): set<string> {
    match MarkerUrl(t, segments)
    case Some(u) => {u}
    case None => {}
  }

  /** The replace callback for one marker: an index in range names a
      segment, whose URL is written out the first time and dropped after;
      an index out of range drops the marker. */
  method ReplaceMarker(digits: string, segments: seq<SegmentRow>, seenUrls: set<string>)
    returns (piece: string, seen: set<string>)
    requires AllDigits(digits)
    ensures piece == Replacement(Marker(digits), seenUrls, segments)
    ensures seen == seenUrls + NewlySeen(Marker(digits), segments)
  {
    seen := seenUrls;
    var index := DigitsValue(digits) - 1;
    if 0 <= index < |segments| {
      var url := segments[index].url;
      if url !in seen {
        seen := seen + {url};
        piece := "[" + url + "]";
      } else {
        piece := "";
      }
    } else {
      piece := "";
    }
  }

  /** `replaceReferencesWithUrls`: a global replace of `[digits]` whose
      callback consults and extends the set of URLs already produced. */
  method ReplaceReferencesWithUrls(text: string, segments: seq<SegmentRow>) returns (out: string)
    ensures out == Rewritten(Tokenize(text), segments)
  {
    var ts := Tokenize(text);
    var seenUrls: set<string> := {};
    out := "";
    for k := 0 to |ts|
      invariant seenUrls == SeenUrls(ts[..k], segments)
      invariant out == Rewritten(ts[..k], segments)
    {
      assert ts[..k + 1][..k] == ts[..k];
      RewrittenSnoc(ts[..k + 1], segments);
      SeenUrlsSnoc(ts[..k + 1], segments);
      var piece: string;
      match ts[k] {
        case Plain(c) =>
          piece := [c];
        case Marker(digits) =>
          piece, seenUrls := ReplaceMarker(digits, segments, seenUrls);
      }
      out := out + piece;
    }
    assert ts[..|ts|] == ts;
  }

  lemma SeenUrlsSnoc(ts: seq<Token>, segments: seq<SegmentRow>)
    requires ts != []
    ensures SeenUrls(ts, segments) == SeenUrls(ts[..|ts| - 1], segments) + NewlySeen(ts[|ts| - 1], segments)
  {
  }

  /** Each URL is written out at most once, and every URL some marker
      resolves to is written out. */
  lemma {:induction false} EmittedOnce(ts: seq<Token>, segments: seq<SegmentRow>)
    ensures forall i, j :: 0 <= i < j < |Emitted(ts, segments)| ==> Emitted(ts, segments)[i] != Emitted(ts, segments)[j]
    ensures forall u :: u in Emitted(ts, segments) <==> u in SeenUrls(ts, segments)
    decreases |ts|
  {
    if ts != [] {
      var init := ts[..|ts| - 1];
      EmittedOnce(init, segments);
    }
  }

  /** Text without markers passes through unchanged. */
  lemma {:induction false} NoMarkersUnchanged(ts: seq<Token>, segments: seq<SegmentRow>)
    requires NoMarkers(ts)
    ensures Rewritten(ts, segments) == Untokenize(ts)
    decreases |ts|
  {
    if ts != [] {
      var init := ts[..|ts| - 1];
      NoMarkersUnchanged(init, segments);
      assert ts == init + [ts[|ts| - 1]];
      UntokenizeAppend(init, [ts[|ts| - 1]]);
      assert Untokenize([ts[|ts| - 1]]) == RenderToken(ts[|ts| - 1]);
    }
  }

  /** A URL has been produced exactly when some earlier marker resolves to
      it. */
  lemma {:induction false} SeenUrlsCharacterized(ts: seq<Token>, segments: seq<SegmentRow>, u: string)
    ensures u in SeenUrls(ts, segments) <==> exists i :: 0 <= i < |ts| && MarkerUrl(ts[i], segments) == Some(u)
    decreases |ts|
  {
    if ts != [] {
      var init := ts[..|ts| - 1];
      SeenUrlsCharacterized(init, segments, u);
      if exists i :: 0 <= i < |init| && MarkerUrl(init[i], segments) == Some(u) {
        var i :| 0 <= i < |init| && MarkerUrl(init[i], segments) == Some(u);
        assert ts[i] == init[i];
      }
    }
  }

  /** What the first `j` tokens produce is a prefix of the whole output, and
      token `j` contributes its replacement right after it. */
  lemma {:induction false} RewrittenPrefix(ts: seq<Token>, segments: seq<SegmentRow>, j: nat)
    requires j < |ts|
    ensures var before := Rewritten(ts[..j], segments);
            var piece := Replacement(ts[j], SeenUrls(ts[..j], segments), segments);
            |before| + |piece| <= |Rewritten(ts, segments)| &&
            Rewritten(ts, segments)[..|before| + |piece|] == before + piece
    decreases |ts|
  {
    var init := ts[..|ts| - 1];
    var before := Rewritten(ts[..j], segments);
    var piece := Replacement(ts[j], SeenUrls(ts[..j], segments), segments);
    var whole := Rewritten(init, segments);
    var last := Replacement(ts[|ts| - 1], SeenUrls(init, segments), segments);
    RewrittenSnoc(ts, segments);
    assert Rewritten(ts, segments) == whole + last;
    if j == |ts| - 1 {
      assert init == ts[..j];
      assert (whole + last)[..|before| + |piece|] == before + piece;
    } else {
      assert init[..j] == ts[..j] && init[j] == ts[j];
      RewrittenPrefix(init, segments, j);
      PrefixOfConcat(whole, last, |before| + |piece|);
    }
  }

  lemma RewrittenSnoc(ts: seq<Token>, segments: seq<SegmentRow>)
    requires ts != []
    ensures var init := ts[..|ts| - 1];
            Rewritten(ts, segments) == Rewritten(init, segments) + Replacement(ts[|ts| - 1], SeenUrls(init, segments), segments)
  {
  }

  lemma PrefixOfConcat<T>(a: seq<T>, b: seq<T>, n: nat)
    requires n <= |a|
    ensures (a + b)[..n] == a[..n]
  {
  }

  /** The first marker resolving to a URL is replaced by `[url]`. */
  lemma FirstReferenceWritten(ts: seq<Token>, segments: seq<SegmentRow>, j: nat, u: string)
    requires j < |ts| && MarkerUrl(ts[j], segments) == Some(u)
    requires forall i :: 0 <= i < j ==> MarkerUrl(ts[i], segments) != Some(u)
    ensures Replacement(ts[j], SeenUrls(ts[..j], segments), segments) == "[" + u + "]"
  {
    SeenUrlsCharacterized(ts[..j], segments, u);
  }

  /** A later marker resolving to an already produced URL is removed. */
  lemma LaterReferenceDropped(ts: seq<Token>, segments: seq<SegmentRow>, i: nat, j: nat, u: string)
    requires i < j < |ts| && MarkerUrl(ts[i], segments) == Some(u) && MarkerUrl(ts[j], segments) == Some(u)
    ensures Replacement(ts[j], SeenUrls(ts[..j], segments), segments) == ""
  {
    assert ts[..j][i] == ts[i];
    SeenUrlsCharacterized(ts[..j], segments, u);
  }

  /** A marker out of range, `[0]` included, is removed. */
  lemma OutOfRangeDropped(digits: string, seen: set<string>, segments: seq<SegmentRow>)
    requires digits != [] && AllDigits(digits)
    requires DigitsValue(digits) == 0 || DigitsValue(digits) > |segments|
    ensures Replacement(Marker(digits), seen, segments) == ""
  {
  }

  // ---------------------------------------------------------------------------
  // Dates

  /** The year `new Date` reads: 0 to 99 mean 1900 to 1999. */
  function FullYear(year: nat): nat {
    if year <= 99 then 1900 + year else year
  }

  /** The year and month (1..12) `new Date(year, month - 1)` lands on: years
      0 to 99 mean 1900 to 1999, and a month index outside 0..11 carries into
      the year. */
  function JsYearMonth(year: nat, month: nat): (ym: (nat, nat))
    ensures 1 <= ym.1 <= 12
  {
    var total := FullYear(year) * 12 + month - 1;
    (total / 12, total % 12 + 1)
  }

  /** `toLocaleString('en-US', { year: 'numeric', month: 'long' })`. */
  function DateText(year: nat, month: nat): string
    requires 1 <= month <= 12
  {
    MonthName(month) + " " + NatToString(year)
  }

  /** The text of `new Date(year, month - 1)` in that format. */
  function LocaleDate(year: nat, month: nat): string {
    var ym := JsYearMonth(year, month);
    DateText(ym.0, ym.1)
  }

  /** `extractDateFromUrl`: `"<Month> <year>"` for the first `/YYYY/MM/`
      fragment, `"Date unknown"` without one. It never fails. */
  function ExtractDateFromUrl(url: string): (r: string)
    ensures Search(url).None? ==> r == "Date unknown"
    ensures Search(url).Some? ==>
              r == LocaleDate(DigitsValue(Search(url).value.year), DigitsValue(Search(url).value.month))
  {
    match Search(url)
    case None => "Date unknown"
    case Some(f) => LocaleDate(DigitsValue(f.year), DigitsValue(f.month))
  }

  /** The date of any year and month the fragment can spell: a year 0..99
      means 1900..1999; month 0 is December of the year before; a month from
      13 on carries whole years, landing on month (month-1) mod 12 + 1 of
      year + (month-1) div 12. */
  lemma LocaleDateRollsOver(year: nat, month: nat)
    ensures month == 0 ==> LocaleDate(year, month) == DateText(FullYear(year) - 1, 12)
    ensures month > 0 ==>
              LocaleDate(year, month) == DateText(FullYear(year) + (month - 1) / 12, (month - 1) % 12 + 1)
  {
    JsYearMonthCarry(year, month);
  }

  /** What `new Date(year, month - 1)` lands on, month by month. */
  lemma JsYearMonthCarry(year: nat, month: nat)
    ensures month == 0 ==> JsYearMonth(year, month) == (FullYear(year) - 1, 12)
    ensures month > 0 ==> JsYearMonth(year, month) == (FullYear(year) + (month - 1) / 12, (month - 1) % 12 + 1)
  {
    var fullYear := FullYear(year);
    if month == 0 {
      assert fullYear * 12 - 1 == (fullYear - 1) * 12 + 11;
    } else {
      assert fullYear * 12 + month - 1 == (fullYear + (month - 1) / 12) * 12 + (month - 1) % 12;
    }
  }

  /** Month 13 rolls over into January of the next year. */
  lemma MonthThirteenRollsOver()
    ensures ExtractDateFromUrl("/2020/13/") == "January 2021"
  {
    MonthThirteenFound();
    assert DigitsValue("2020") == 2020 by {
      assert "2020"[..3] == "202" && "202"[..2] == "20" && "20"[..1] == "2" && "2"[..0] == [];
    }
    assert DigitsValue("13") == 13 by {
      assert "13"[..1] == "1" && "1"[..0] == [];
    }
    assert JsYearMonth(2020, 13) == (2021, 1);
    assert NatToString(2021) == "2021";
  }

  lemma MonthThirteenFound()
    ensures Search("/2020/13/") == Some(Fragment("2020", "13"))
  {
    assert "" + "/" + "2020" + "/" + "13" + "/" + "" == "/2020/13/";
    assert AllDigits("2020") by {
      assert forall i :: 0 <= i < 4 ==> "2020"[i] in {'0', '2'};
    }
    assert AllDigits("13") by {
      assert forall i :: 0 <= i < 2 ==> "13"[i] in {'1', '3'};
    }
    SearchFindsFragment("", "2020", "13", "");
  }

  /** Both services date a URL alike when its fragment holds a real month of
      a year from 100 on; only the Python one can fail. */
  lemma ServicesAgreeOnValidDates(url: string)
    requires Search(url).Some?
    requires DigitsValue(Search(url).value.year) >= 100
    requires 1 <= DigitsValue(Search(url).value.month) <= 12
    ensures PromptAssembly.ExtractDateFromUrl(url) == Ok(ExtractDateFromUrl(url))
  {
    var f := Search(url).value;
    JsYearMonthOfValidDate(DigitsValue(f.year), DigitsValue(f.month));
  }

  /** A real month of a year from 100 on is taken as it is. */
  lemma JsYearMonthOfValidDate(year: nat, month: nat)
    requires year >= 100 && 1 <= month <= 12
    ensures JsYearMonth(year, month) == (year, month)
  {
  }

  // ---------------------------------------------------------------------------
  // Prompt text

  /** One reference block, numbered by position. */
  function ReferenceBlock(n: nat, s: SegmentRow): string {
    "[Reference " + NatToString(n) + " - " + ExtractDateFromUrl(s.url) + "]:\n" + s.content
  }

  function ReferenceBlocks(segments: seq<SegmentRow>): (blocks: seq<string>)
    ensures |blocks| == |segments|
  {
    seq(|segments|, i requires 0 <= i < |segments| => ReferenceBlock(i + 1, segments[i]))
  }

  /** `formatContextSegments`: one block per segment, numbered 1..n by
      position, joined by blank lines. */
  function FormatContextSegments(segments: seq<SegmentRow>): (r: string)
    ensures r == "" <==> segments == []
  {
    if segments == [] then ""
    else
      JoinStartsWithFirst(ReferenceBlocks(segments), "\n\n");
      Join(ReferenceBlocks(segments), "\n\n")
  }

  /** The `k`-th segment (from 0) is referenced as number `k + 1`. */
  lemma ReferencesNumberedByPosition(segments: seq<SegmentRow>, k: nat)
    requires k < |segments|
    ensures Contains(FormatContextSegments(segments), ReferenceBlock(k + 1, segments[k]))
  {
    JoinContains(ReferenceBlocks(segments), "\n\n", k);
  }

  /** The numbering ignores the segments' database ids. */
  lemma ReferencesIgnoreIds(segments: seq<SegmentRow>, relabelled: seq<SegmentRow>)
    requires |relabelled| == |segments|
    requires forall i :: 0 <= i < |segments| ==>
               relabelled[i].url == segments[i].url && relabelled[i].content == segments[i].content
    ensures FormatContextSegments(relabelled) == FormatContextSegments(segments)
  {
    assert ReferenceBlocks(relabelled) == ReferenceBlocks(segments);
  }

  /** `formatUserPrompt`: system prompt, date, context, question. */
  function FormatUserPrompt(systemPrompt: string, userMessage: string, contextText: string, today: string): string {
    systemPrompt + "\n\n\n        Today's date: " + today + "\n\n\n        Context from the blog:\n\n" + contextText +
    "\n\n\n        User question: " + userMessage
  }

  /** The prompt is the system prompt, then the date, then the context, then
      the user's question, which ends it. */
  lemma UserPromptOrder(systemPrompt: string, userMessage: string, contextText: string, today: string)
    ensures var r := FormatUserPrompt(systemPrompt, userMessage, contextText, today);
            var iDate := |systemPrompt + "\n\n\n        Today's date: "|;
            var iContext := iDate + |today + "\n\n\n        Context from the blog:\n\n"|;
            var iQuestion := |r| - |userMessage|;
            OccursAt(r, systemPrompt, 0) && OccursAt(r, today, iDate) && OccursAt(r, contextText, iContext) &&
            iDate + |today| <= iContext && iContext + |contextText| <= iQuestion &&
            OccursAt(r, userMessage, iQuestion)
  {
    Interleaved(systemPrompt, "\n\n\n        Today's date: ", today, "\n\n\n        Context from the blog:\n\n",
                contextText, "\n\n\n        User question: ", userMessage);
  }

  /** Where four pieces separated by three fixed strings sit. */
  lemma Interleaved(p1: string, l1: string, p2: string, l2: string, p3: string, l3: string, p4: string)
    ensures var r := p1 + l1 + p2 + l2 + p3 + l3 + p4;
            OccursAt(r, p1, 0) && OccursAt(r, p2, |p1 + l1|) && OccursAt(r, p3, |p1 + l1| + |p2 + l2|) &&
            OccursAt(r, p4, |r| - |p4|)
  {
    var r := p1 + l1 + p2 + l2 + p3 + l3 + p4;
    PieceAt([], p1, l1 + p2 + l2 + p3 + l3 + p4, r);
    PieceAt(p1 + l1, p2, l2 + p3 + l3 + p4, r);
    PieceAt(p1 + l1 + p2 + l2, p3, l3 + p4, r);
    PieceAt(p1 + l1 + p2 + l2 + p3 + l3, p4, [], r);
  }
}
