/** The blog update route: choosing the posts that are newer than the last
    stored one, and cutting each post's text at the `#skipai` tag. The
    Blogger listing, the stored URL and the HTML-to-text conversion are
    parameters; saving is represented by the list handed to the saver,
    a call that throws as the route is written. */
module BlogRoutes {
  import opened Text

  // ---------------------------------------------------------------------------
  // The #skipai tag

  const SkipAiTag := "#skipai"

  /** The tag starts at `i` when the text is lower-cased (ASCII). */
  predicate TagAt(content: string, i: int) {
    OccursAt(ToLowerAscii(content), SkipAiTag, i)
  }

  /** `filterSkipAiContent`. */
  function FilterSkipAiContent(content: string): (r: string)
    ensures |r| <= |content|
  {
    match IndexOf(ToLowerAscii(content), SkipAiTag)
    case Some(i) => Trim(content[..i])
    case None => content
  }

  /** The filtered text is the trimmed text before the first
      case-insensitive `#skipai`, or the text unchanged without one. */
  lemma SkipAiCut(content: string)
    ensures (forall i :: !TagAt(content, i)) ==> FilterSkipAiContent(content) == content
    ensures forall i :: TagAt(content, i) && (forall j :: 0 <= j < i ==> !TagAt(content, j)) ==>
              FilterSkipAiContent(content) == Trim(content[..i])
  {
    match IndexOf(ToLowerAscii(content), SkipAiTag)
    case None =>
    case Some(k) =>
      assert TagAt(content, k);
      forall i | TagAt(content, i) && (forall j :: 0 <= j < i ==> !TagAt(content, j))
        ensures i == k
      {
      }
  }

  /** A tag inside a slice is a tag of the whole text, further on by the
      slice's start. */
  lemma TagInSlice(content: string, sub: string, a: nat, j: int)
    requires a + |sub| <= |content| && sub == content[a..a + |sub|]
    requires TagAt(sub, j)
    ensures TagAt(content, a + j) && j + |SkipAiTag| <= |sub|
  {
    LowerSlice(content, a, a + |sub|);
    var lower := ToLowerAscii(content);
    assert lower[a..a + |sub|][j..j + |SkipAiTag|] == lower[a + j..a + j + |SkipAiTag|];
  }

  /** A tag in the trimmed prefix is a tag of the text, inside the prefix. */
  lemma TagInTrimmedPrefix(content: string, i: nat, j: int)
    requires i <= |content| && TagAt(Trim(content[..i]), j)
    ensures var at := LeadingSpaces(content[..i]) + j;
            TagAt(content, at) && at < i
  {
    var pre := content[..i];
    var r := Trim(pre);
    var lead := LeadingSpaces(pre);
    assert lead + |r| <= |pre| && r == pre[lead..lead + |r|];
    TagInSlice(pre, r, lead, j);
    assert |pre| == i && pre == content[0..0 + |pre|];
    TagInSlice(content, pre, 0, lead + j);
  }

  /** Text before the first tag holds no tag, nor does its trimmed form. */
  lemma NoTagBefore(content: string, i: nat)
    requires i <= |content|
    requires forall j :: 0 <= j < i ==> !TagAt(content, j)
    ensures forall j :: !TagAt(Trim(content[..i]), j)
  {
    forall j | TagAt(Trim(content[..i]), j)
      ensures false
    {
      TagInTrimmedPrefix(content, i, j);
    }
  }

  /** The filtered text holds no tag. */
  lemma NoTagAfterFilter(content: string)
    ensures forall j :: !TagAt(FilterSkipAiContent(content), j)
  {
    match IndexOf(ToLowerAscii(content), SkipAiTag)
    case None =>
    case Some(i) =>
      NoTagBefore(content, i);
  }

  /** Filtering twice is filtering once. */
  lemma FilterIdempotent(content: string)
    ensures FilterSkipAiContent(FilterSkipAiContent(content)) == FilterSkipAiContent(content)
  {
    NoTagAfterFilter(content);
    SkipAiCut(FilterSkipAiContent(content));
  }

  // ---------------------------------------------------------------------------
  // Choosing new posts

  /** `url.replace(/^https?:\/\//, "")`. */
  function StripScheme(url: string): (r: string)
    ensures url == r || url == "http://" + r || url == "https://" + r
  {
    if |url| >= 8 && url[..8] == "https://" then
      assert url == url[..8] + url[8..];
      url[8..]
    else if |url| >= 7 && url[..7] == "http://" then
      assert url == url[..7] + url[7..];
      url[7..]
    else url
  }

  /** The scheme is removed whichever of the two it is, so the same address
      over `http` and over `https` compares equal. */
  lemma StripSchemeRoundTrip(address: string)
    ensures StripScheme("http://" + address) == address
    ensures StripScheme("https://" + address) == address
  {
    if |"http://" + address| >= 8 {
      assert ("http://" + address)[..8][4] == ':';
    }
    assert ("https://" + address)[..8] == "https://";
    assert ("http://" + address)[..7] == "http://";
    assert ("https://" + address)[8..] == address;
    assert ("http://" + address)[7..] == address;
  }

  /** A post as the Blogger listing returns it, and as the route keeps it. */
  datatype Post = Post(url: string, title: string, content: string)
  datatype Blog = Blog(url: string, title: string, content: string)

  /** `{ url, title, content: convertHtmlToText(post.content) }`. */
  function ToBlog(post: Post, convert: string -> string): Blog {
    Blog(post.url, post.title, convert(post.content))
  }

  function ToBlogs(posts: seq<Post>, convert: string -> string): (blogs: seq<Blog>)
    ensures |blogs| == |posts|
    ensures forall i :: 0 <= i < |posts| ==> blogs[i] == ToBlog(posts[i], convert)
  {
    seq(|posts|, i requires 0 <= i < |posts| => ToBlog(posts[i], convert))
  }

  /** The post is the stored one, once both schemes are stripped. */
  predicate IsStored(post: Post, mostRecentUrl: string) {
    StripScheme(post.url) == StripScheme(mostRecentUrl)
  }

  /** Position of the first stored post, or the length of the list. */
  function FirstStored(posts: seq<Post>, mostRecentUrl: string): (k: nat)
    ensures k <= |posts|
    ensures forall j :: 0 <= j < k ==> !IsStored(posts[j], mostRecentUrl)
    ensures k < |posts| ==> IsStored(posts[k], mostRecentUrl)
  {
    if posts == [] then 0
    else if IsStored(posts[0], mostRecentUrl) then 0
    else 1 + FirstStored(posts[1..], mostRecentUrl)
  }

  /** A stored URL counts only when it is a non-empty string (JavaScript
      truthiness); `None` stands for a missing row or URL. */
  predicate HasStoredUrl(mostRecentUrl: Option<string>) {
    mostRecentUrl.Some? && mostRecentUrl.value != ""
  }

  /** The posts the route takes: those before the stored one when a URL is
      stored, every post otherwise. */
  function Selected(posts: seq<Post>, mostRecentUrl: Option<string>): seq<Post> {
    if HasStoredUrl(mostRecentUrl) then posts[..FirstStored(posts, mostRecentUrl.value)] else posts
  }

  /** The loop of the update route: collect posts until the stored one. */
  method SelectNewBlogs(posts: seq<Post>, mostRecentUrl: Option<string>, convert: string -> string)
    returns (newBlogs: seq<Blog>)
    ensures newBlogs == ToBlogs(Selected(posts, mostRecentUrl), convert)
  {
    if HasStoredUrl(mostRecentUrl) {
      ghost var k := FirstStored(posts, mostRecentUrl.value);
      newBlogs := [];
      var i := 0;
      while i < |posts|
        invariant i <= k
        invariant newBlogs == ToBlogs(posts[..i], convert)
      {
        var mostRecentPath := StripScheme(mostRecentUrl.value);
        var postPath := StripScheme(posts[i].url);
        if postPath == mostRecentPath {
          break;
        }
        newBlogs := newBlogs + [ToBlog(posts[i], convert)];
        i := i + 1;
      }
      assert i == k;
    } else {
      newBlogs := ToBlogs(posts, convert);
    }
  }

  /** The selection is the longest run of posts before the stored one: no
      selected post is the stored one, and the post after the selection is
      (when there is one). Without a stored URL every post is taken. */
  lemma SelectionStopsAtStored(posts: seq<Post>, mostRecentUrl: Option<string>)
    ensures var s := Selected(posts, mostRecentUrl);
            s == posts[..|s|] &&
            (HasStoredUrl(mostRecentUrl) ==>
               (forall j :: 0 <= j < |s| ==> !IsStored(posts[j], mostRecentUrl.value)) &&
               (|s| < |posts| ==> IsStored(posts[|s|], mostRecentUrl.value))) &&
            (!HasStoredUrl(mostRecentUrl) ==> s == posts)
  {
  }

  function Reverse<T>(s: seq<T>): (r: seq<T>)
    ensures |r| == |s|
    ensures forall i :: 0 <= i < |s| ==> r[i] == s[|s| - 1 - i]
  {
    seq(|s|, i requires 0 <= i < |s| => s[|s| - 1 - i])
  }

  function FilterBlogs(blogs: seq<Blog>): (r: seq<Blog>)
    ensures |r| == |blogs|
    ensures forall i :: 0 <= i < |blogs| ==>
              r[i] == Blog(blogs[i].url, blogs[i].title, FilterSkipAiContent(blogs[i].content))
  {
    seq(|blogs|, i requires 0 <= i < |blogs| =>
      Blog(blogs[i].url, blogs[i].title, FilterSkipAiContent(blogs[i].content)))
  }

  /** What the route hands to the saver for the selected posts, if it
      calls it at all. */
  function SaveList(selected: seq<Post>, convert: string -> string): Option<seq<Blog>> {
    var newBlogs := ToBlogs(selected, convert);
    if |newBlogs| > 0 then Some(FilterBlogs(Reverse(newBlogs))) else None
  }

  function ToSave(posts: seq<Post>, mostRecentUrl: Option<string>, convert: string -> string): Option<seq<Blog>> {
    SaveList(Selected(posts, mostRecentUrl), convert)
  }

  /** The reply of the `/update` route. */
  datatype UpdateReply =
    | Pulled(newBlogsProcessed: nat)
    | PullFailed(status: nat, error: string)

  /** The `/update` route after the two lookups: select the new posts and,
      when there are any, reverse them, filter their text and hand them to
      `processAndSaveArticles`. The segmenter script exports no such
      function, so the imported name is `undefined`: the call throws a
      `TypeError`, and the route's `catch` answers 500. The reply can
      therefore only report success with a count of 0. */
  method UpdateBlogs(posts: seq<Post>, mostRecentUrl: Option<string>, convert: string -> string)
    returns (handedOver: Option<seq<Blog>>, reply: UpdateReply)
    ensures handedOver == ToSave(posts, mostRecentUrl, convert)
    ensures Selected(posts, mostRecentUrl) == [] ==> reply == Pulled(0)
    ensures Selected(posts, mostRecentUrl) != [] ==> reply == PullFailed(500, "Failed to pull blogs")
  {
    var newBlogs := SelectNewBlogs(posts, mostRecentUrl, convert);
    handedOver := None;
    if |newBlogs| > 0 {
      newBlogs := Reverse(newBlogs);
      newBlogs := FilterBlogs(newBlogs);
      handedOver := Some(newBlogs);
      // the imported `processAndSaveArticles` is undefined, so calling it throws
      reply := PullFailed(500, "Failed to pull blogs");
      return;
    }
    reply := Pulled(|newBlogs|);
  }

  /** The saved list is the selection in reverse order, each post's text
      converted and cut at its tag; nothing is saved when nothing is
      selected. */
  lemma SavedInReverse(s: seq<Post>, convert: string -> string)
    ensures var saved := SaveList(s, convert);
            (saved.None? <==> s == []) &&
            (saved.Some? ==>
               |saved.value| == |s| &&
               forall j :: 0 <= j < |s| ==>
                 saved.value[j] == Blog(s[|s| - 1 - j].url, s[|s| - 1 - j].title,
                                        FilterSkipAiContent(convert(s[|s| - 1 - j].content))))
  {
    var newBlogs := ToBlogs(s, convert);
    if s != [] {
      var saved := FilterBlogs(Reverse(newBlogs));
      assert SaveList(s, convert) == Some(saved);
      forall j | 0 <= j < |s|
        ensures saved[j] == Blog(s[|s| - 1 - j].url, s[|s| - 1 - j].title,
                                 FilterSkipAiContent(convert(s[|s| - 1 - j].content)))
      {
        SavedEntry(s, convert, j);
      }
    }
  }

  lemma SavedEntry(s: seq<Post>, convert: string -> string, j: nat)
    requires j < |s|
    ensures var p := s[|s| - 1 - j];
            FilterBlogs(Reverse(ToBlogs(s, convert)))[j] == Blog(p.url, p.title, FilterSkipAiContent(convert(p.content)))
  {
    var reversed := Reverse(ToBlogs(s, convert));
    assert reversed[j] == ToBlog(s[|s| - 1 - j], convert);
  }
}
