/** Reference renumbering in the web client (`processResponseText` and the
    splitting in `renderMessageWithLinks`). The server's reply cites blog
    segments as `[id]`; the client numbers the distinct URLs 1, 2, 3, ... in
    order of first appearance, rewrites each marker to its number and keeps
    a `links` table from number to URL. Lookups in JavaScript objects key
    by string, so a missing URL (`undefined`) is filed under the key
    "undefined". */
module ClientLinks {
  import opened Text
  import opened Markers

  /** The string a URL becomes as an object key. */
  function UrlKey(url: Option<string>): string {
    match url
    case None => "undefined"
    case Some(u) => u
  }

  /** `linkData[segmentId]`. */
  function UrlOf(digits: string, linkData: map<string, string>): Option<string> {
    if digits in linkData then Some(linkData[digits]) else None
  }

  /** Position of the first URL of `order` with the given key. */
  function KeyIndex(order: seq<Option<string>>, key: string): (r: Option<nat>)
    ensures r.Some? ==> r.value < |order| && UrlKey(order[r.value]) == key &&
                        forall i :: 0 <= i < r.value ==> UrlKey(order[i]) != key
    ensures r.None? ==> forall i :: 0 <= i < |order| ==> UrlKey(order[i]) != key
  {
    if order == [] then None
    else if UrlKey(order[0]) == key then Some(0)
    else
      match KeyIndex(order[1..], key)
      case None => None
      case Some(i) => Some(i + 1)
  }

  /** The number a URL key receives given the URLs numbered so far: its
      existing number, or the next one. */
  function NumberIn(order: seq<Option<string>>, key: string): (n: nat)
    ensures 1 <= n <= |order| + 1
  {
    match KeyIndex(order, key)
    case Some(i) => i + 1
    case None => |order| + 1
  }

  /** The URLs in the order they were first numbered (`links[1]`,
      `links[2]`, ...). */
  function Order(ts: seq<Token>, linkData: map<string, string>): seq<Option<string>> {
    if ts == [] then []
    else
      var init := Order(ts[..|ts| - 1], linkData);
      match ts[|ts| - 1]
      case Plain(_) => init
      case Marker(d) => Extend(init, UrlOf(d, linkData))
  }

  /** Numbering a URL: a key not numbered yet is appended. */
  function Extend(order: seq<Option<string>>, url: Option<string>): seq<Option<string>> {
    if KeyIndex(order, UrlKey(url)).Some? then order else order + [url]
  }

  /** No URL key is numbered twice. */
  lemma {:induction false} OrderDistinct(ts: seq<Token>, linkData: map<string, string>)
    ensures forall i, j :: 0 <= i < j < |Order(ts, linkData)| ==>
              UrlKey(Order(ts, linkData)[i]) != UrlKey(Order(ts, linkData)[j])
  {
    if ts != [] {
      var init := ts[..|ts| - 1];
      var before := Order(init, linkData);
      OrderDistinct(init, linkData);
      match ts[|ts| - 1]
      case Plain(_) =>
        assert Order(ts, linkData) == before;
      case Marker(d) =>
        var url := UrlOf(d, linkData);
        if KeyIndex(before, UrlKey(url)).None? {
          var order := before + [url];
          assert Order(ts, linkData) == order;
          assert forall i :: 0 <= i < |before| ==> order[i] == before[i];
        } else {
          assert Order(ts, linkData) == before;
        }
    }
  }

  /** What one token becomes, given the URLs numbered so far. */
  function Renumbered(t: Token, order: seq<Option<string>>, linkData: map<string, string>): string {
    match t
    case Plain(c) => [c]
    case Marker(d) => "[" + NatToString(NumberIn(order, UrlKey(UrlOf(d, linkData)))) + "]"
  }

  /** The processed text. */
  function Processed(ts: seq<Token>, linkData: map<string, string>): string {
    if ts == [] then ""
    else
      var init := ts[..|ts| - 1];
      Processed(init, linkData) + Renumbered(ts[|ts| - 1], Order(init, linkData), linkData)
  }

  /** The `links` table: number `n` (from 1) maps to the `n`-th URL. */
  function LinksOf(order: seq<Option<string>>): (links: map<nat, Option<string>>)
    ensures forall n: nat :: n in links <==> 1 <= n <= |order|
    ensures forall n :: n in links ==> links[n] == order[n - 1]
  {
    if order == [] then map[]
    else LinksOf(order[..|order| - 1])[|order| := order[|order| - 1]]
  }

  /** The client's tables agree with the URLs numbered so far. */
  ghost predicate Tracks(order: seq<Option<string>>, linkCounter: nat, links: map<nat, Option<string>>,
                         urlToNumberMap: map<string, nat>, idToNumberMap: map<string, nat>,
                         linkData: map<string, string>)
  {
    linkCounter == |order| + 1 &&
    links == LinksOf(order) &&
    (forall key :: key in urlToNumberMap <==> KeyIndex(order, key).Some?) &&
    (forall key :: key in urlToNumberMap ==> urlToNumberMap[key] == KeyIndex(order, key).value + 1) &&
    (forall d :: d in idToNumberMap ==> UrlKey(UrlOf(d, linkData)) in urlToNumberMap &&
                                        idToNumberMap[d] == urlToNumberMap[UrlKey(UrlOf(d, linkData))])
  }

  lemma TracksNew(order: seq<Option<string>>, linkCounter: nat, links: map<nat, Option<string>>,
                  urlToNumberMap: map<string, nat>, idToNumberMap: map<string, nat>,
                  linkData: map<string, string>, segmentId: string)
    requires Tracks(order, linkCounter, links, urlToNumberMap, idToNumberMap, linkData)
    requires KeyIndex(order, UrlKey(UrlOf(segmentId, linkData))).None?
    ensures var url := UrlOf(segmentId, linkData);
            Tracks(order + [url], linkCounter + 1, links[linkCounter := url],
                   urlToNumberMap[UrlKey(url) := linkCounter], idToNumberMap[segmentId := linkCounter], linkData)
  {
    var url := UrlOf(segmentId, linkData);
    var key := UrlKey(url);
    var order' := order + [url];
    var urlToNumberMap' := urlToNumberMap[key := linkCounter];
    assert LinksOf(order') == links[linkCounter := url] by {
      assert order'[..|order'| - 1] == order;
    }
    assert KeyIndex(order', key) == Some(|order|) by {
      KeyIndexExtend(order, [url], key);
      assert order'[|order|] == url;
    }
    forall k | k != key
      ensures k in urlToNumberMap' <==> KeyIndex(order', k).Some?
      ensures k in urlToNumberMap' ==> urlToNumberMap'[k] == KeyIndex(order', k).value + 1
    {
      KeyIndexExtend(order, [url], k);
    }
    var idToNumberMap' := idToNumberMap[segmentId := linkCounter];
    forall d | d in idToNumberMap'
      ensures UrlKey(UrlOf(d, linkData)) in urlToNumberMap'
      ensures idToNumberMap'[d] == urlToNumberMap'[UrlKey(UrlOf(d, linkData))]
    {
      if d != segmentId {
        assert UrlKey(UrlOf(d, linkData)) in urlToNumberMap;
      }
    }
  }

  lemma TracksOld(order: seq<Option<string>>, linkCounter: nat, links: map<nat, Option<string>>,
                  urlToNumberMap: map<string, nat>, idToNumberMap: map<string, nat>,
                  linkData: map<string, string>, segmentId: string)
    requires Tracks(order, linkCounter, links, urlToNumberMap, idToNumberMap, linkData)
    requires UrlKey(UrlOf(segmentId, linkData)) in urlToNumberMap
    ensures var key := UrlKey(UrlOf(segmentId, linkData));
            urlToNumberMap[key] == NumberIn(order, key) &&
            Tracks(order, linkCounter, links, urlToNumberMap, idToNumberMap[segmentId := urlToNumberMap[key]], linkData)
  {
  }

  /** Reading one more token: a marker numbers its URL, and the text grows
      by the token's rewriting. */
  lemma ReadStep(ts: seq<Token>, k: nat, linkData: map<string, string>)
    requires k < |ts|
    ensures Order(ts[..k + 1], linkData) ==
            if ts[k].Plain? then Order(ts[..k], linkData)
            else Extend(Order(ts[..k], linkData), UrlOf(ts[k].digits, linkData))
    ensures Processed(ts[..k + 1], linkData) ==
            Processed(ts[..k], linkData) + Renumbered(ts[k], Order(ts[..k], linkData), linkData)
  {
    assert ts[..k + 1][..k] == ts[..k];
  }

  /** The callback of the replace for one `[segmentId]`: the number of its
      URL, taken from the tables or assigned next. */
  method NumberMarker(segmentId: string, linkData: map<string, string>, ghost order: seq<Option<string>>,
                      linkCounter: nat, links: map<nat, Option<string>>,
                      urlToNumberMap: map<string, nat>, idToNumberMap: map<string, nat>)
    returns (piece: string, linkCounter': nat, links': map<nat, Option<string>>,
             urlToNumberMap': map<string, nat>, idToNumberMap': map<string, nat>)
    requires Tracks(order, linkCounter, links, urlToNumberMap, idToNumberMap, linkData)
    ensures piece == Renumbered(Marker(segmentId), order, linkData)
    ensures Tracks(Extend(order, UrlOf(segmentId, linkData)), linkCounter', links', urlToNumberMap', idToNumberMap', linkData)
  {
    var url := UrlOf(segmentId, linkData);
    var key := UrlKey(url);
    linkCounter', links', urlToNumberMap' := linkCounter, links, urlToNumberMap;
    if key in urlToNumberMap && urlToNumberMap[key] != 0 {
      TracksOld(order, linkCounter, links, urlToNumberMap, idToNumberMap, linkData, segmentId);
      idToNumberMap' := idToNumberMap[segmentId := urlToNumberMap[key]];
      piece := "[" + NatToString(urlToNumberMap[key]) + "]";
    } else {
      TracksNew(order, linkCounter, links, urlToNumberMap, idToNumberMap, linkData, segmentId);
      idToNumberMap' := idToNumberMap[segmentId := linkCounter];
      urlToNumberMap' := urlToNumberMap[key := linkCounter];
      links' := links[linkCounter := url];
      linkCounter' := linkCounter + 1;
      piece := "[" + NatToString(idToNumberMap'[segmentId]) + "]";
    }
  }

  /** `processResponseText`: a global replace of `[digits]` whose callback
      reads and extends `urlToNumberMap`, `idToNumberMap`, `links` and the
      counter. */
  method ProcessResponseText(text: string, linkData: map<string, string>)
    returns (processedText: string, links: map<nat, Option<string>>)
    ensures processedText == Processed(Tokenize(text), linkData)
    ensures links == LinksOf(Order(Tokenize(text), linkData))
  {
    var ts := Tokenize(text);
    links := map[];
    var linkCounter: nat := 1;
    var idToNumberMap: map<string, nat> := map[];
    var urlToNumberMap: map<string, nat> := map[];
    processedText := "";
    for k := 0 to |ts|
      invariant Tracks(Order(ts[..k], linkData), linkCounter, links, urlToNumberMap, idToNumberMap, linkData)
      invariant processedText == Processed(ts[..k], linkData)
    {
      ReadStep(ts, k, linkData);
      var piece: string;
      match ts[k] {
        case Plain(c) =>
          piece := [c];
        case Marker(segmentId) =>
          piece, linkCounter, links, urlToNumberMap, idToNumberMap :=
            NumberMarker(segmentId, linkData, Order(ts[..k], linkData), linkCounter, links, urlToNumberMap, idToNumberMap);
      }
      processedText := processedText + piece;
    }
    assert ts[..|ts|] == ts;
  }

  /** Extending the order does not move an already numbered key, and a key
      found only in the extension lies after the old part. */
  lemma {:induction false} KeyIndexExtend(order: seq<Option<string>>, more: seq<Option<string>>, key: string)
    ensures KeyIndex(order, key).Some? ==> KeyIndex(order + more, key) == KeyIndex(order, key)
    ensures KeyIndex(order, key).None? && KeyIndex(order + more, key).Some? ==>
              KeyIndex(order + more, key).value >= |order|
  {
    if KeyIndex(order, key).Some? {
      var i := KeyIndex(order, key).value;
      assert forall j :: 0 <= j <= i ==> (order + more)[j] == order[j];
    } else {
      assert forall j :: 0 <= j < |order| ==> (order + more)[j] == order[j];
    }
  }

  /** The URL key of the marker at position `j`. */
  function KeyAt(ts: seq<Token>, j: nat, linkData: map<string, string>): string
    requires j < |ts| && ts[j].Marker?
  {
    UrlKey(UrlOf(ts[j].digits, linkData))
  }

  /** The number the marker at position `j` is rewritten to. */
  function NumberAt(ts: seq<Token>, j: nat, linkData: map<string, string>): nat
    requires j < |ts| && ts[j].Marker?
  {
    NumberIn(Order(ts[..j], linkData), KeyAt(ts, j, linkData))
  }

  /** The URLs numbered while reading a prefix are the first ones numbered
      while reading the whole text. */
  lemma {:induction false} OrderPrefix(ts: seq<Token>, j: nat, linkData: map<string, string>)
    requires j <= |ts|
    ensures var o := Order(ts[..j], linkData);
            |o| <= |Order(ts, linkData)| && o == Order(ts, linkData)[..|o|]
    decreases |ts|
  {
    if j < |ts| {
      var init := ts[..|ts| - 1];
      OrderPrefix(init, j, linkData);
      assert init[..j] == ts[..j];
    } else {
      assert ts[..j] == ts;
    }
  }

  /** After the marker at `j` is read, its URL holds number `NumberAt`. */
  lemma NumberedAfterMarker(ts: seq<Token>, j: nat, linkData: map<string, string>)
    requires j < |ts| && ts[j].Marker?
    ensures KeyIndex(Order(ts[..j + 1], linkData), KeyAt(ts, j, linkData)) == Some(NumberAt(ts, j, linkData) - 1)
  {
    assert ts[..j + 1][..j] == ts[..j];
    var o := Order(ts[..j], linkData);
    var key := KeyAt(ts, j, linkData);
    if KeyIndex(o, key).None? {
      var o' := o + [UrlOf(ts[j].digits, linkData)];
      KeyIndexExtend(o, [UrlOf(ts[j].digits, linkData)], key);
      assert o'[|o|] == UrlOf(ts[j].digits, linkData);
    }
  }

  /** Every rewritten marker points, through `links`, at its own segment's
      URL. */
  lemma MarkerLinksToItsUrl(ts: seq<Token>, j: nat, linkData: map<string, string>)
    requires j < |ts| && ts[j].Marker?
    ensures var links := LinksOf(Order(ts, linkData));
            NumberAt(ts, j, linkData) in links &&
            UrlKey(links[NumberAt(ts, j, linkData)]) == KeyAt(ts, j, linkData)
  {
    NumberedAfterMarker(ts, j, linkData);
    OrderPrefix(ts, j + 1, linkData);
    var o := Order(ts[..j + 1], linkData);
    var n := NumberAt(ts, j, linkData);
    assert Order(ts, linkData)[n - 1] == o[n - 1];
  }

  /** A URL keeps the number it was first given. */
  lemma SameUrlSameNumber(ts: seq<Token>, i: nat, j: nat, linkData: map<string, string>)
    requires i < j < |ts| && ts[i].Marker? && ts[j].Marker?
    requires KeyAt(ts, i, linkData) == KeyAt(ts, j, linkData)
    ensures NumberAt(ts, i, linkData) == NumberAt(ts, j, linkData)
  {
    NumberedAfterMarker(ts, i, linkData);
    KeyStaysNumbered(ts, i + 1, j, KeyAt(ts, i, linkData), linkData);
  }

  /** A key numbered while reading a prefix keeps its position. */
  lemma KeyStaysNumbered(ts: seq<Token>, a: nat, b: nat, key: string, linkData: map<string, string>)
    requires a <= b <= |ts| && KeyIndex(Order(ts[..a], linkData), key).Some?
    ensures KeyIndex(Order(ts[..b], linkData), key) == KeyIndex(Order(ts[..a], linkData), key)
  {
    OrderPrefix(ts[..b], a, linkData);
    assert ts[..b][..a] == ts[..a];
    var early := Order(ts[..a], linkData);
    var late := Order(ts[..b], linkData);
    assert late == early + late[|early|..];
    KeyIndexExtend(early, late[|early|..], key);
  }

  /** Two markers get the same number exactly when their segments have the
      same URL; in particular a repeated segment id reuses its number. */
  lemma SameNumberIffSameUrl(ts: seq<Token>, i: nat, j: nat, linkData: map<string, string>)
    requires i < j < |ts| && ts[i].Marker? && ts[j].Marker?
    ensures NumberAt(ts, i, linkData) == NumberAt(ts, j, linkData) <==> KeyAt(ts, i, linkData) == KeyAt(ts, j, linkData)
  {
    if KeyAt(ts, i, linkData) == KeyAt(ts, j, linkData) {
      SameUrlSameNumber(ts, i, j, linkData);
    } else {
      MarkerLinksToItsUrl(ts, i, linkData);
      MarkerLinksToItsUrl(ts, j, linkData);
    }
  }

  /** New numbers are handed out in order of first appearance: a marker
      whose URL has not been seen gets the next number. */
  lemma FreshUrlGetsNextNumber(ts: seq<Token>, j: nat, linkData: map<string, string>)
    requires j < |ts| && ts[j].Marker?
    requires forall i :: 0 <= i < j && ts[i].Marker? ==> KeyAt(ts, i, linkData) != KeyAt(ts, j, linkData)
    ensures NumberAt(ts, j, linkData) == |Order(ts[..j], linkData)| + 1
  {
    if KeyIndex(Order(ts[..j], linkData), KeyAt(ts, j, linkData)).Some? {
      OrderKeysSeen(ts[..j], KeyIndex(Order(ts[..j], linkData), KeyAt(ts, j, linkData)).value, linkData);
      assert false;
    }
  }

  /** Every numbered URL is the URL of some marker read. */
  lemma {:induction false} OrderKeysSeen(ts: seq<Token>, p: nat, linkData: map<string, string>)
    requires p < |Order(ts, linkData)|
    ensures exists i :: 0 <= i < |ts| && ts[i].Marker? &&
                        UrlKey(UrlOf(ts[i].digits, linkData)) == UrlKey(Order(ts, linkData)[p])
    decreases |ts|
  {
    var init := ts[..|ts| - 1];
    var o := Order(init, linkData);
    if p < |o| {
      OrderKeysSeen(init, p, linkData);
      assert Order(ts, linkData)[p] == o[p];
      var i :| 0 <= i < |init| && init[i].Marker? && UrlKey(UrlOf(init[i].digits, linkData)) == UrlKey(o[p]);
      assert ts[i] == init[i];
    } else {
      assert ts[|ts| - 1].Marker?;
    }
  }

  /** Markers with their numbers in place of the segment ids. */
  function Relabelled(ts: seq<Token>, linkData: map<string, string>): (r: seq<Token>)
    ensures |r| == |ts|
  {
    if ts == [] then []
    else
      var init := ts[..|ts| - 1];
      var t := ts[|ts| - 1];
      Relabelled(init, linkData) +
      [if t.Marker? then Marker(NatToString(NumberIn(Order(init, linkData), UrlKey(UrlOf(t.digits, linkData))))) else t]
  }

  /** The processed text is the text with each marker's digits replaced by
      its number; plain characters are kept in place. */
  lemma ProcessedIsRelabelled(ts: seq<Token>, linkData: map<string, string>)
    ensures Processed(ts, linkData) == Untokenize(Relabelled(ts, linkData))
    ensures forall j :: 0 <= j < |ts| && ts[j].Plain? ==> Relabelled(ts, linkData)[j] == ts[j]
    ensures forall j :: 0 <= j < |ts| && ts[j].Marker? ==>
              Relabelled(ts, linkData)[j] == Marker(NatToString(NumberAt(ts, j, linkData)))
  {
    ProcessedText(ts, linkData);
    forall j | 0 <= j < |ts|
      ensures Relabelled(ts, linkData)[j] ==
              if ts[j].Marker? then Marker(NatToString(NumberAt(ts, j, linkData))) else ts[j]
    {
      RelabelledAt(ts, linkData, j);
    }
  }

  lemma {:induction false} ProcessedText(ts: seq<Token>, linkData: map<string, string>)
    ensures Processed(ts, linkData) == Untokenize(Relabelled(ts, linkData))
    decreases |ts|
  {
    if ts != [] {
      var init := ts[..|ts| - 1];
      ProcessedText(init, linkData);
      var last := Relabelled(ts, linkData)[|ts| - 1];
      UntokenizeAppend(Relabelled(init, linkData), [last]);
      assert Untokenize([last]) == RenderToken(last);
    }
  }

  lemma {:induction false} RelabelledAt(ts: seq<Token>, linkData: map<string, string>, j: nat)
    requires j < |ts|
    ensures Relabelled(ts, linkData)[j] ==
            if ts[j].Marker? then Marker(NatToString(NumberAt(ts, j, linkData))) else ts[j]
    decreases |ts|
  {
    var init := ts[..|ts| - 1];
    if j < |ts| - 1 {
      RelabelledAt(init, linkData, j);
      assert init[..j] == ts[..j] && init[j] == ts[j];
    } else {
      assert init == ts[..j];
    }
  }

  /** A reply without markers comes back unchanged, with no links. */
  lemma NoMarkersUnchanged(text: string, linkData: map<string, string>)
    requires NoMarkers(Tokenize(text))
    ensures Processed(Tokenize(text), linkData) == text
    ensures LinksOf(Order(Tokenize(text), linkData)) == map[]
  {
    var ts := Tokenize(text);
    ProcessedIsRelabelled(ts, linkData);
    assert Relabelled(ts, linkData) == ts;
    TokenizeRoundTrip(text);
    if Order(ts, linkData) != [] {
      OrderKeysSeen(ts, 0, linkData);
    }
  }

  /** `text.split(/(\[\d+])/)` on a tokenized text: the stretches between
      markers, with each marker (kept by the capturing group) between
      them. The result always starts and ends with a stretch, possibly
      empty. */
  function Parts(ts: seq<Token>): (parts: seq<string>)
    ensures |parts| == 2 * |MarkerIds(ts)| + 1
  {
    if ts == [] then [""]
    else
      var rest := Parts(ts[1..]);
      match ts[0]
      case Plain(c) => [[c] + rest[0]] + rest[1..]
      case Marker(d) => ["", "[" + d + "]"] + rest
  }

  /** Joining the parts gives the text back; odd-numbered parts are the
      markers, in order. */
  lemma PartsShape(ts: seq<Token>)
    ensures Concat(Parts(ts)) == Untokenize(ts)
    ensures forall m :: 0 <= m < |MarkerIds(ts)| ==> Parts(ts)[2 * m + 1] == "[" + MarkerIds(ts)[m] + "]"
  {
    PartsConcat(ts);
    forall m | 0 <= m < |MarkerIds(ts)|
      ensures Parts(ts)[2 * m + 1] == "[" + MarkerIds(ts)[m] + "]"
    {
      PartsMarker(ts, m);
    }
  }

  lemma {:induction false} PartsConcat(ts: seq<Token>)
    ensures Concat(Parts(ts)) == Untokenize(ts)
  {
    if ts != [] {
      var rest := Parts(ts[1..]);
      PartsConcat(ts[1..]);
      match ts[0]
      case Plain(c) =>
        assert rest == [rest[0]] + rest[1..];
        assert Concat(rest) == rest[0] + Concat(rest[1..]);
        assert ([[c] + rest[0]] + rest[1..])[1..] == rest[1..];
      case Marker(d) =>
        var parts := ["", "[" + d + "]"] + rest;
        assert parts[1..] == ["[" + d + "]"] + rest && (["[" + d + "]"] + rest)[1..] == rest;
    }
  }

  lemma {:induction false} PartsMarker(ts: seq<Token>, m: nat)
    requires m < |MarkerIds(ts)|
    ensures Parts(ts)[2 * m + 1] == "[" + MarkerIds(ts)[m] + "]"
  {
    var rest := Parts(ts[1..]);
    var k := 2 * m + 1;
    match ts[0]
    case Plain(c) =>
      assert MarkerIds(ts) == MarkerIds(ts[1..]);
      PartsMarker(ts[1..], m);
      assert Parts(ts) == [[c] + rest[0]] + rest[1..];
      assert Parts(ts)[k] == rest[k];
    case Marker(d) =>
      assert MarkerIds(ts) == [d] + MarkerIds(ts[1..]);
      assert Parts(ts) == ["", "[" + d + "]"] + rest;
      if m > 0 {
        PartsMarker(ts[1..], m - 1);
        assert Parts(ts)[k] == rest[2 * (m - 1) + 1];
      }
  }


  /** `parseInt` on a string that starts with a decimal digit: the value of
      the leading run of digits. */
  function ParseInt(s: string): nat {
    DigitsValue(s[..DigitRunEnd(s, 0)])
  }

  /** What the chat window shows for one part of a message. */
  datatype Piece = TextPiece(text: string) | LinkPiece(number: nat, href: Option<string>)

  /** `links[linkNumber]`, `undefined` when absent. */
  function Lookup(links: map<nat, Option<string>>, n: nat): Option<string> {
    if n in links then links[n] else None
  }

  /** `renderMessageWithLinks`: without a links table the text is shown as
      is; with one (even an empty one) every marker part becomes a link
      labelled with its parsed number, pointing at that number's URL. */
  function RenderMessageWithLinks(text: string, links: Option<map<nat, Option<string>>>): (pieces: seq<Piece>)
    ensures links.None? ==> pieces == [TextPiece(text)]
    ensures links.Some? ==> |pieces| == 2 * |MarkerIds(Tokenize(text))| + 1
  {
    match links
    case None => [TextPiece(text)]
    case Some(table) => RenderParts(Parts(Tokenize(text)), table)
  }

  /** Each part on its own: a marker part (odd position) becomes a link. */
  function RenderParts(parts: seq<string>, table: map<nat, Option<string>>): (pieces: seq<Piece>)
    ensures |pieces| == |parts|
  {
    seq(|parts|, k requires 0 <= k < |parts| =>
      if k % 2 == 1 && |parts[k]| >= 2 then
        var n := ParseInt(parts[k][1..|parts[k]| - 1]);
        LinkPiece(n, Lookup(table, n))
      else TextPiece(parts[k]))
  }

  /** The `m`-th marker of a message is shown as a link numbered by its
      digits and pointing at the table's URL for that number; the text
      between markers is shown unchanged. */
  lemma RenderedLinks(text: string, table: map<nat, Option<string>>, m: nat)
    requires m < |MarkerIds(Tokenize(text))|
    ensures AllDigits(MarkerIds(Tokenize(text))[m])
    ensures var n := DigitsValue(MarkerIds(Tokenize(text))[m]);
            RenderMessageWithLinks(text, Some(table))[2 * m + 1] == LinkPiece(n, Lookup(table, n))
  {
    RenderedMarker(Tokenize(text), table, m);
  }

  lemma RenderedMarker(ts: seq<Token>, table: map<nat, Option<string>>, m: nat)
    requires WellFormed(ts) && m < |MarkerIds(ts)|
    ensures AllDigits(MarkerIds(ts)[m])
    ensures var n := DigitsValue(MarkerIds(ts)[m]);
            RenderParts(Parts(ts), table)[2 * m + 1] == LinkPiece(n, Lookup(table, n))
  {
    PartsMarker(ts, m);
    MarkerIdsWellFormed(ts, m);
    var d := MarkerIds(ts)[m];
    var k := 2 * m + 1;
    var part := Parts(ts)[k];
    assert part[1..|part| - 1] == d;
    ParseIntOfDigits(d);
    OddPosition(m);
    RenderedPart(Parts(ts), table, k);
  }

  lemma RenderedPart(parts: seq<string>, table: map<nat, Option<string>>, k: nat)
    requires k < |parts| && k % 2 == 1 && |parts[k]| >= 2
    ensures var n := ParseInt(parts[k][1..|parts[k]| - 1]);
            RenderParts(parts, table)[k] == LinkPiece(n, Lookup(table, n))
  {
  }

  lemma OddPosition(m: nat)
    ensures (2 * m + 1) % 2 == 1
  {
  }

  /** `parseInt` of a digit string is its decimal value. */
  lemma ParseIntOfDigits(d: string)
    requires AllDigits(d)
    ensures ParseInt(d) == DigitsValue(d)
  {
    assert d[..DigitRunEnd(d, 0)] == d;
  }

  /** Marker ids of a tokenized text are digit strings. */
  lemma {:induction false} MarkerIdsWellFormed(ts: seq<Token>, m: nat)
    requires WellFormed(ts) && m < |MarkerIds(ts)|
    ensures MarkerIds(ts)[m] != [] && AllDigits(MarkerIds(ts)[m])
  {
    assert ts[0] in ts;
    if ts[0].Marker? && m == 0 {
    } else {
      MarkerIdsWellFormed(ts[1..], if ts[0].Marker? then m - 1 else m);
    }
  }

  /** The parts of a rendered message spell out the message. */
  lemma RenderedTextRoundTrip(text: string)
    ensures Concat(Parts(Tokenize(text))) == text
  {
    PartsShape(Tokenize(text));
    TokenizeRoundTrip(text);
  }
}
