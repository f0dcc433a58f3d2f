/** Retrieval fusion of the Python chat service (`AiService.get_relevant_context`).
    For each of the recent user messages, in the order given, the vector
    store returns blog segments, Q&A pairs and past conversations, each with
    a similarity. The i-th message's results are scaled by `1 - 0.2 * i`,
    tagged with their kind and appended to one list; shadow-banned blog
    segments (ids 195 to 221) are dropped, the rest is sorted by similarity,
    largest first and stably, and the first five are split by kind.
    The embedding and store calls are not modelled: their results are the
    input `retrievals`, one entry per message. */
module ContextFusion {
  import opened Text
  import opened StableSort

  /** A chat message: its text and whether the clone (rather than the user)
      wrote it. */
  datatype Message = Message(content: string, isAI: bool)

  /** A row of `match_segments_blog`. */
  datatype SegmentRow = SegmentRow(id: int, url: string, content: string, similarity: real)
  /** A row of `match_questions`; the answer may be missing. */
  datatype QuestionRow = QuestionRow(question: string, answer: Option<string>, similarity: real)
  /** A row of `match_conversations`: a stored conversation. */
  datatype ConversationRow = ConversationRow(conversation: seq<Message>, similarity: real)

  /** What the store returned for one message. */
  datatype Retrieval = Retrieval(segments: seq<SegmentRow>, questions: seq<QuestionRow>,
                                 conversations: seq<ConversationRow>)

  /** A row tagged with its kind (the `'type'` key). */
  datatype Candidate =
    | Segment(segment: SegmentRow)
    | Question(question: QuestionRow)
    | Conversation(conversation: ConversationRow)

  /** The three lists returned to the caller. */
  datatype RelevantContext = RelevantContext(allSegments: seq<SegmentRow>,
                                             topSimilarQuestions: seq<QuestionRow>,
                                             topSimilarConversations: seq<ConversationRow>)

  const TopCount: nat := 5
  const BannedLow: int := 195
  const BannedHigh: int := 221

  function Similarity(c: Candidate): real {
    match c
    case Segment(s) => s.similarity
    case Question(q) => q.similarity
    case Conversation(v) => v.similarity
  }

  /** The weight of the results of the message at position `i`. */
  function Weight(i: nat): real {
    1.0 - (i as real) * 0.2
  }

  function ScaleSegment(s: SegmentRow, w: real): SegmentRow { s.(similarity := s.similarity * w) }
  function ScaleQuestion(q: QuestionRow, w: real): QuestionRow { q.(similarity := q.similarity * w) }
  function ScaleConversation(v: ConversationRow, w: real): ConversationRow { v.(similarity := v.similarity * w) }

  /** One message's results, scaled by `w` and tagged: segments, then
      questions, then conversations. */
  function Weighted(r: Retrieval, w: real): (t: seq<Candidate>)
    ensures |t| == |r.segments| + |r.questions| + |r.conversations|
  {
    seq(|r.segments|, k requires 0 <= k < |r.segments| => Segment(ScaleSegment(r.segments[k], w))) +
    seq(|r.questions|, k requires 0 <= k < |r.questions| => Question(ScaleQuestion(r.questions[k], w))) +
    seq(|r.conversations|, k requires 0 <= k < |r.conversations| => Conversation(ScaleConversation(r.conversations[k], w)))
  }

  /** `combined_results` after the loop over the messages. */
  function Combined(rs: seq<Retrieval>): seq<Candidate>
  {
    if rs == [] then []
    else Combined(rs[..|rs| - 1]) + Weighted(rs[|rs| - 1], Weight(|rs| - 1))
  }

  /** The shadow-ban filter: only blog segments are ever dropped. */
  predicate Admitted(c: Candidate) {
    !c.Segment? || c.segment.id <= BannedLow - 1 || c.segment.id >= BannedHigh + 1
  }

  /** The candidates kept after filtering, sorting and taking the first five. */
  function Top(rs: seq<Retrieval>): seq<Candidate> {
    Take(SortDesc(Filter(Combined(rs), Admitted), Similarity), TopCount)
  }

  function SegmentsOf(cs: seq<Candidate>): (r: seq<SegmentRow>)
    ensures |r| <= |cs|
  {
    if cs == [] then []
    else (if cs[0].Segment? then [cs[0].segment] else []) + SegmentsOf(cs[1..])
  }

  function QuestionsOf(cs: seq<Candidate>): (r: seq<QuestionRow>)
    ensures |r| <= |cs|
  {
    if cs == [] then []
    else (if cs[0].Question? then [cs[0].question] else []) + QuestionsOf(cs[1..])
  }

  function ConversationsOf(cs: seq<Candidate>): (r: seq<ConversationRow>)
    ensures |r| <= |cs|
  {
    if cs == [] then []
    else (if cs[0].Conversation? then [cs[0].conversation] else []) + ConversationsOf(cs[1..])
  }

  /** The result of `get_relevant_context` as a function of the retrievals. */
  function Fuse(rs: seq<Retrieval>): RelevantContext {
    var top := Top(rs);
    RelevantContext(SegmentsOf(top), QuestionsOf(top), ConversationsOf(top))
  }

  // ---------------------------------------------------------------------------
  // The service method

  /** Scales one message's segment rows by `weight`, then tags them. */
  method WeighSegments(rows: seq<SegmentRow>, weight: real) returns (tagged: seq<Candidate>)
    ensures tagged == seq(|rows|, k requires 0 <= k < |rows| => Segment(ScaleSegment(rows[k], weight)))
  {
    var scaled := rows;
    for k := 0 to |scaled|
      invariant |scaled| == |rows|
      invariant forall j :: 0 <= j < k ==> scaled[j] == ScaleSegment(rows[j], weight)
      invariant forall j :: k <= j < |rows| ==> scaled[j] == rows[j]
    {
      scaled := scaled[k := scaled[k].(similarity := scaled[k].similarity * weight)];
    }
    tagged := [];
    for k := 0 to |scaled|
      invariant tagged == seq(k, j requires 0 <= j < k => Segment(ScaleSegment(rows[j], weight)))
    {
      tagged := tagged + [Segment(scaled[k])];
    }
  }

  /** Scales one message's Q&A rows by `weight`, then tags them. */
  method WeighQuestions(rows: seq<QuestionRow>, weight: real) returns (tagged: seq<Candidate>)
    ensures tagged == seq(|rows|, k requires 0 <= k < |rows| => Question(ScaleQuestion(rows[k], weight)))
  {
    var scaled := rows;
    for k := 0 to |scaled|
      invariant |scaled| == |rows|
      invariant forall j :: 0 <= j < k ==> scaled[j] == ScaleQuestion(rows[j], weight)
      invariant forall j :: k <= j < |rows| ==> scaled[j] == rows[j]
    {
      scaled := scaled[k := scaled[k].(similarity := scaled[k].similarity * weight)];
    }
    tagged := [];
    for k := 0 to |scaled|
      invariant tagged == seq(k, j requires 0 <= j < k => Question(ScaleQuestion(rows[j], weight)))
    {
      tagged := tagged + [Question(scaled[k])];
    }
  }

  /** Scales one message's conversation rows by `weight`, then tags them. */
  method WeighConversations(rows: seq<ConversationRow>, weight: real) returns (tagged: seq<Candidate>)
    ensures tagged == seq(|rows|, k requires 0 <= k < |rows| => Conversation(ScaleConversation(rows[k], weight)))
  {
    var scaled := rows;
    for k := 0 to |scaled|
      invariant |scaled| == |rows|
      invariant forall j :: 0 <= j < k ==> scaled[j] == ScaleConversation(rows[j], weight)
      invariant forall j :: k <= j < |rows| ==> scaled[j] == rows[j]
    {
      scaled := scaled[k := scaled[k].(similarity := scaled[k].similarity * weight)];
    }
    tagged := [];
    for k := 0 to |scaled|
      invariant tagged == seq(k, j requires 0 <= j < k => Conversation(ScaleConversation(rows[j], weight)))
    {
      tagged := tagged + [Conversation(scaled[k])];
    }
  }

  /** `get_relevant_context`: weigh and merge every message's results, drop
      banned segments, sort, keep five and split them by kind. */
  method GetRelevantContext(retrievals: seq<Retrieval>) returns (ctx: RelevantContext)
    ensures ctx == Fuse(retrievals)
  {
    var combined: seq<Candidate> := [];
    for i := 0 to |retrievals|
      invariant combined == Combined(retrievals[..i])
    {
      var weight := 1.0 - (i as real) * 0.2;
      var r := retrievals[i];
      var segments := WeighSegments(r.segments, weight);
      var questions := WeighQuestions(r.questions, weight);
      var conversations := WeighConversations(r.conversations, weight);
      combined := combined + (segments + questions + conversations);
      assert retrievals[..i + 1][..i] == retrievals[..i];
    }
    assert retrievals[..|retrievals|] == retrievals;
    var filtered := Filter(combined, Admitted);
    var sorted := SortDesc(filtered, Similarity);
    var top := Take(sorted, TopCount);
    ctx := RelevantContext(SegmentsOf(top), QuestionsOf(top), ConversationsOf(top));
  }

  // ---------------------------------------------------------------------------
  // Properties

  lemma CombinedSnoc(rs: seq<Retrieval>)
    requires rs != []
    ensures Combined(rs) == Combined(rs[..|rs| - 1]) + Weighted(rs[|rs| - 1], Weight(|rs| - 1))
  {
  }

  /** The results of the first `i` messages form a prefix of the merged list. */
  lemma {:induction false} CombinedPrefix(rs: seq<Retrieval>, i: nat)
    requires i <= |rs|
    ensures |Combined(rs[..i])| <= |Combined(rs)|
    ensures Combined(rs)[..|Combined(rs[..i])|] == Combined(rs[..i])
    decreases |rs|
  {
    if i < |rs| {
      var init := rs[..|rs| - 1];
      assert init[..i] == rs[..i];
      CombinedPrefix(init, i);
    } else {
      assert rs[..i] == rs;
    }
  }

  /** Where each scaled row of one message sits among that message's tagged
      results. */
  lemma WeightedLayout(r: Retrieval, w: real)
    ensures var t := Weighted(r, w);
            var ns := |r.segments|;
            var nq := |r.questions|;
            (forall k :: 0 <= k < ns ==> t[k] == Segment(ScaleSegment(r.segments[k], w))) &&
            (forall k :: 0 <= k < nq ==> t[ns + k] == Question(ScaleQuestion(r.questions[k], w))) &&
            (forall k :: 0 <= k < |r.conversations| ==>
              t[ns + nq + k] == Conversation(ScaleConversation(r.conversations[k], w)))
  {
  }

  /** The tagged results of the message at position `i` follow those of the
      earlier messages in the merged list. */
  lemma CombinedSlice(rs: seq<Retrieval>, i: nat, before: seq<Candidate>, t: seq<Candidate>)
    requires i < |rs| && before == Combined(rs[..i]) && t == Weighted(rs[i], Weight(i))
    ensures |before| + |t| <= |Combined(rs)|
    ensures forall k :: 0 <= k < |t| ==> Combined(rs)[|before| + k] == t[k]
  {
    var upto := rs[..i + 1];
    assert upto[..i] == rs[..i] && upto[i] == rs[i];
    CombinedSnoc(upto);
    assert Combined(upto) == before + t;
    CombinedPrefix(rs, i + 1);
    PieceOfPrefix(Combined(rs), before, t);
  }

  /** A sequence that starts with `before + t` holds `t` right after `before`. */
  lemma PieceOfPrefix<T>(all: seq<T>, before: seq<T>, t: seq<T>)
    requires |before| + |t| <= |all| && all[..|before| + |t|] == before + t
    ensures forall k :: 0 <= k < |t| ==> all[|before| + k] == t[k]
  {
    forall k | 0 <= k < |t| ensures all[|before| + k] == t[k] {
      assert all[..|before| + |t|][|before| + k] == t[k];
    }
  }

  /** Position weighting: the results for the message at position `i` sit in
      the merged list right after those of the earlier messages, segments,
      then Q&A pairs, then conversations, each scaled by `Weight(i)`, that is
      `1 - 0.2 * i`. */
  lemma WeightingByPosition(rs: seq<Retrieval>, i: nat)
    requires i < |rs|
    ensures var off := |Combined(rs[..i])|;
            var r := rs[i];
            var ns := |r.segments|;
            var nq := |r.questions|;
            off + ns + nq + |r.conversations| <= |Combined(rs)| &&
            (forall k :: 0 <= k < ns ==> Combined(rs)[off + k] == Segment(ScaleSegment(r.segments[k], Weight(i)))) &&
            (forall k :: 0 <= k < nq ==> Combined(rs)[off + ns + k] == Question(ScaleQuestion(r.questions[k], Weight(i)))) &&
            (forall k :: 0 <= k < |r.conversations| ==>
              Combined(rs)[off + ns + nq + k] == Conversation(ScaleConversation(r.conversations[k], Weight(i))))
  {
    CombinedSlice(rs, i, Combined(rs[..i]), Weighted(rs[i], Weight(i)));
    WeightedLayout(rs[i], Weight(i));
  }

  lemma {:induction false} SegmentsOfMember(cs: seq<Candidate>, s: SegmentRow)
    requires s in SegmentsOf(cs)
    ensures Segment(s) in cs
  {
    if !(cs[0].Segment? && cs[0].segment == s) {
      SegmentsOfMember(cs[1..], s);
    }
  }

  /** Every returned candidate passed the ban filter. */
  lemma TopAdmitted(rs: seq<Retrieval>)
    ensures forall c :: c in Top(rs) ==> c in Filter(Combined(rs), Admitted) && Admitted(c)
  {
    var filtered := Filter(Combined(rs), Admitted);
    var sorted := SortDesc(filtered, Similarity);
    forall c | c in Top(rs) ensures c in filtered {
      assert c in sorted;
      assert c in multiset(sorted);
    }
  }

  /** No blog segment with an id from 195 to 221 is ever returned. */
  lemma BannedNeverReturned(rs: seq<Retrieval>)
    ensures forall s :: s in Fuse(rs).allSegments ==> s.id < BannedLow || s.id > BannedHigh
  {
    TopAdmitted(rs);
    forall s | s in Fuse(rs).allSegments ensures s.id < BannedLow || s.id > BannedHigh {
      SegmentsOfMember(Top(rs), s);
    }
  }

  /** The ban filter never removes a Q&A pair or a conversation. */
  lemma {:induction false} OnlySegmentsFiltered(cs: seq<Candidate>)
    ensures QuestionsOf(Filter(cs, Admitted)) == QuestionsOf(cs)
    ensures ConversationsOf(Filter(cs, Admitted)) == ConversationsOf(cs)
  {
    if cs != [] {
      OnlySegmentsFiltered(cs[1..]);
      var head := if Admitted(cs[0]) then [cs[0]] else [];
      assert Filter(cs, Admitted) == head + Filter(cs[1..], Admitted);
      if Admitted(cs[0]) {
        assert (head + Filter(cs[1..], Admitted))[1..] == Filter(cs[1..], Admitted);
      } else {
        assert head + Filter(cs[1..], Admitted) == Filter(cs[1..], Admitted);
      }
    }
  }

  /** Splitting by kind puts each candidate in exactly one list. */
  lemma {:induction false} PartitionSizes(cs: seq<Candidate>)
    ensures |SegmentsOf(cs)| + |QuestionsOf(cs)| + |ConversationsOf(cs)| == |cs|
  {
    if cs != [] { PartitionSizes(cs[1..]); }
  }

  /** At most five candidates are returned in all, and fewer only when fewer
      survived the filter. */
  lemma AtMostFive(rs: seq<Retrieval>)
    ensures var ctx := Fuse(rs);
            var admitted := |Filter(Combined(rs), Admitted)|;
            |ctx.allSegments| + |ctx.topSimilarQuestions| + |ctx.topSimilarConversations| ==
              if admitted <= TopCount then admitted else TopCount
  {
    PartitionSizes(Top(rs));
  }

  /** The kept candidates are in non-increasing similarity order and none of
      the admitted candidates left out has a larger similarity than any kept
      one. */
  lemma TopAreHighest(rs: seq<Retrieval>)
    ensures SortedDesc(Top(rs), Similarity)
    ensures var admitted := multiset(Filter(Combined(rs), Admitted));
            multiset(Top(rs)) <= admitted &&
            forall a, b :: a in Top(rs) && b in admitted - multiset(Top(rs)) ==> Similarity(a) >= Similarity(b)
  {
    var filtered := Filter(Combined(rs), Admitted);
    var sorted := SortDesc(filtered, Similarity);
    var top := Top(rs);
    TakeOfSortedIsTop(filtered, Similarity, TopCount);
    assert multiset(top) + multiset(sorted[|top|..]) == multiset(filtered);
    forall a, b | a in top && b in multiset(filtered) - multiset(top) ensures Similarity(a) >= Similarity(b) {
      assert b in multiset(sorted[|top|..]);
      assert b in sorted[|top|..];
    }
  }

  /** Ties keep merge order: the kept candidates of any one similarity are the
      first of the admitted candidates of that similarity, in the order they
      were merged. */
  lemma TiesKeepMergeOrder(rs: seq<Retrieval>, v: real)
    ensures var tied := WithKey(Filter(Combined(rs), Admitted), Similarity, v);
            var kept := WithKey(Top(rs), Similarity, v);
            |kept| <= |tied| && kept == tied[..|kept|]
  {
    var sorted := SortDesc(Filter(Combined(rs), Admitted), Similarity);
    SortDescStable(Filter(Combined(rs), Admitted), Similarity, v);
    var top := Top(rs);
    assert sorted == top + sorted[|top|..];
    WithKeyAppend(top, sorted[|top|..], Similarity, v);
  }

  /** No deduplication: the same stored segment retrieved for two messages
      takes two of the five places, once per weight. */
  lemma NoDeduplication(row: SegmentRow)
    requires Admitted(Segment(row)) && row.similarity >= 0.0
    ensures var one := Retrieval([row], [], []);
            Fuse([one, one]).allSegments == [row, row.(similarity := row.similarity * 0.8)]
  {
    var one := Retrieval([row], [], []);
    var first := Segment(row);
    var second := Segment(row.(similarity := row.similarity * 0.8));
    TwiceRetrievedTop(row);
    assert SegmentsOf([first, second]) == [row, row.(similarity := row.similarity * 0.8)] by {
      assert [first, second][1..] == [second];
      assert [second][1..] == [];
    }
  }

  lemma TwiceRetrievedTop(row: SegmentRow)
    requires Admitted(Segment(row)) && row.similarity >= 0.0
    ensures var one := Retrieval([row], [], []);
            Top([one, one]) == [Segment(row), Segment(row.(similarity := row.similarity * 0.8))]
  {
    var first := Segment(row);
    var second := Segment(row.(similarity := row.similarity * 0.8));
    TwiceRetrievedCombined(row);
    TwoAdmittedSorted(first, second);
  }

  lemma TwiceRetrievedCombined(row: SegmentRow)
    ensures var one := Retrieval([row], [], []);
            Combined([one, one]) == [Segment(row), Segment(row.(similarity := row.similarity * 0.8))]
  {
    var one := Retrieval([row], [], []);
    assert Weighted(one, Weight(0)) == [Segment(row)];
    assert Weighted(one, Weight(1)) == [Segment(row.(similarity := row.similarity * 0.8))];
    assert Combined([one]) == [Segment(row)] by {
      assert [one][..0] == [];
    }
    assert [one, one][..1] == [one];
  }

  lemma TwoAdmittedSorted(first: Candidate, second: Candidate)
    requires Admitted(first) && Admitted(second) && Similarity(first) >= Similarity(second)
    ensures Take(SortDesc(Filter([first, second], Admitted), Similarity), TopCount) == [first, second]
  {
    assert [second][1..] == [];
    assert Filter([second], Admitted) == [second];
    assert [first, second][1..] == [second];
    assert Filter([first, second], Admitted) == [first, second];
    assert SortDesc([second], Similarity) == [second];
    assert SortDesc([first, second], Similarity) == [first, second];
  }
}
