/** The batch pipeline shared by the offline embedding scripts: cut the
    input into fixed-size batches, build one record per item (an item whose
    embedding request fails is skipped), and save each batch's records when
    there are any. The embedding service and the store are parameters: the
    store accepts or rejects each insert, and a rejected insert ends the
    whole run. */
module EtlBatches {
  import opened Text

  function Min(a: int, b: int): int {
    if a <= b then a else b
  }

  // ---------------------------------------------------------------------------
  // processInBatches

  /** The batches of `processInBatches(items, size)`: consecutive slices of
      `size` items, the last one possibly shorter. */
  function Batches<T>(items: seq<T>, size: nat): seq<seq<T>>
    requires size > 0
    decreases |items|
  {
    if items == [] then []
    else [items[..Min(size, |items|)]] + Batches(items[Min(size, |items|)..], size)
  }

  /** The batches partition the input in order: joined they are the input,
      each holds between one and `size` items, and all but the last are
      full. No input, no batches. */
  lemma {:induction false} BatchesPartition<T>(items: seq<T>, size: nat)
    requires size > 0
    ensures Flatten(Batches(items, size)) == items
    ensures Batches(items, size) == [] <==> items == []
    ensures forall k :: 0 <= k < |Batches(items, size)| ==> 0 < |Batches(items, size)[k]| <= size
    ensures forall k :: 0 <= k < |Batches(items, size)| - 1 ==> |Batches(items, size)[k]| == size
  {
    if items != [] {
      var cut := Min(size, |items|);
      BatchesPartition(items[cut..], size);
      assert items == items[..cut] + items[cut..];
      var bs := Batches(items, size);
      assert bs[1..] == Batches(items[cut..], size);
      if cut < size {
        assert items[cut..] == [];
      }
    }
  }

  /** With batches of one, the k-th batch is the k-th item alone. */
  lemma {:induction false} BatchesOfOne<T>(items: seq<T>)
    ensures |Batches(items, 1)| == |items|
    ensures forall k :: 0 <= k < |items| ==> Batches(items, 1)[k] == [items[k]]
  {
    if items != [] {
      BatchesOfOne(items[1..]);
      assert forall k :: 0 < k < |items| ==> Batches(items, 1)[k] == Batches(items[1..], 1)[k - 1];
    }
  }

  /** `processInBatches`: a loop pushing `items.slice(i, i + size)` while
      `i < items.length`. A size of 0 would never end the loop. */
  method ProcessInBatches<T>(items: seq<T>, batchSize: nat) returns (batches: seq<seq<T>>)
    requires batchSize > 0
    ensures batches == Batches(items, batchSize)
  {
    batches := [];
    var i := 0;
    while i < |items|
      invariant i <= |items|
      invariant batches + Batches(items[i..], batchSize) == Batches(items, batchSize)
      decreases |items| - i
    {
      var hi := Min(i + batchSize, |items|);
      var rest := items[i..];
      assert rest[..Min(batchSize, |rest|)] == items[i..hi];
      assert rest[Min(batchSize, |rest|)..] == items[hi..];
      batches := batches + [items[i..hi]];
      i := hi;
    }
    assert items[i..] == [];
  }

  // ---------------------------------------------------------------------------
  // Building and saving records

  /** The records built from `xs`, in order; an item whose build fails is
      skipped. */
  function Successes<T, R>(xs: seq<T>, build: T -> Option<R>): (rs: seq<R>)
    ensures |rs| <= |xs|
  {
    if xs == [] then []
    else
      Successes(xs[..|xs| - 1], build) +
      match build(xs[|xs| - 1]) case Some(r) => [r] case None => []
  }

  lemma {:induction false} SuccessesAppend<T, R>(a: seq<T>, b: seq<T>, build: T -> Option<R>)
    ensures Successes(a + b, build) == Successes(a, build) + Successes(b, build)
  {
    if b != [] {
      var c := a + b;
      assert c[..|c| - 1] == a + b[..|b| - 1];
      assert c[|c| - 1] == b[|b| - 1];
      SuccessesAppend(a, b[..|b| - 1], build);
    } else {
      assert a + b == a;
    }
  }

  /** The batches of records handed to the store: one per input batch that
      produced at least one record. */
  function SavedBatches<T, R>(batches: seq<seq<T>>, build: T -> Option<R>): seq<seq<R>> {
    if batches == [] then []
    else
      var records := Successes(batches[|batches| - 1], build);
      SavedBatches(batches[..|batches| - 1], build) + (if records == [] then [] else [records])
  }

  /** Every record built is saved exactly once, in input order, and no
      saved batch is empty or larger than its input batch. */
  lemma {:induction false} SavedIsEverySuccess<T, R>(batches: seq<seq<T>>, build: T -> Option<R>)
    ensures Flatten(SavedBatches(batches, build)) == Successes(Flatten(batches), build)
    ensures forall k :: 0 <= k < |SavedBatches(batches, build)| ==> SavedBatches(batches, build)[k] != []
  {
    if batches != [] {
      var init := batches[..|batches| - 1];
      var last := batches[|batches| - 1];
      var records := Successes(last, build);
      SavedIsEverySuccess(init, build);
      assert batches == init + [last];
      FlattenAppend(init, [last]);
      assert Flatten([last]) == last + Flatten([last][1..]);
      assert Flatten([last]) == last;
      SuccessesAppend(Flatten(init), last, build);
      FlattenAppend(SavedBatches(init, build), if records == [] then [] else [records]);
      if records != [] {
        assert Flatten([records]) == records + Flatten([records][1..]);
      }
    }
  }

  /** Saved batches of batches of at most `size` items hold at most `size`
      records. */
  lemma {:induction false} SavedBatchesBounded<T, R>(batches: seq<seq<T>>, build: T -> Option<R>, size: nat)
    requires forall k :: 0 <= k < |batches| ==> |batches[k]| <= size
    ensures forall k :: 0 <= k < |SavedBatches(batches, build)| ==> |SavedBatches(batches, build)[k]| <= size
  {
    if batches != [] {
      var init := batches[..|batches| - 1];
      assert forall k :: 0 <= k < |init| ==> init[k] == batches[k];
      SavedBatchesBounded(init, build, size);
    }
  }

  lemma {:induction false} SavedBatchesAppend<T, R>(a: seq<seq<T>>, b: seq<seq<T>>, build: T -> Option<R>)
    ensures SavedBatches(a + b, build) == SavedBatches(a, build) + SavedBatches(b, build)
  {
    if b != [] {
      var c := a + b;
      assert c[..|c| - 1] == a + b[..|b| - 1];
      assert c[|c| - 1] == b[|b| - 1];
      SavedBatchesAppend(a, b[..|b| - 1], build);
    } else {
      assert a + b == a;
    }
  }

  /** The position of the first batch the store rejects, or the number of
      batches when it accepts them all. */
  function FirstRejected<R>(saved: seq<seq<R>>, store: seq<R> -> bool): (k: nat)
    ensures k <= |saved|
    ensures forall j :: 0 <= j < k ==> store(saved[j])
    ensures k < |saved| ==> !store(saved[k])
  {
    if saved == [] || !store(saved[0]) then 0
    else 1 + FirstRejected(saved[1..], store)
  }

  /** Batches the store accepts do not move the first rejection. */
  lemma {:induction false} FirstRejectedAfter<R>(accepted: seq<seq<R>>, rest: seq<seq<R>>, store: seq<R> -> bool)
    requires forall j :: 0 <= j < |accepted| ==> store(accepted[j])
    ensures FirstRejected(accepted + rest, store) == |accepted| + FirstRejected(rest, store)
  {
    if accepted != [] {
      assert (accepted + rest)[1..] == accepted[1..] + rest;
      FirstRejectedAfter(accepted[1..], rest, store);
    } else {
      assert accepted + rest == rest;
    }
  }

  /** What reaches the store: the batches before the first rejected one. */
  function Stored<R>(saved: seq<seq<R>>, store: seq<R> -> bool): seq<seq<R>> {
    saved[..FirstRejected(saved, store)]
  }

  /** The records stored are the first records built, in input order; all
      of them exactly when the store rejects nothing. */
  lemma StoredIsPrefix<T, R>(batches: seq<seq<T>>, build: T -> Option<R>, store: seq<R> -> bool)
    ensures Flatten(Stored(SavedBatches(batches, build), store)) <= Successes(Flatten(batches), build)
    ensures FirstRejected(SavedBatches(batches, build), store) == |SavedBatches(batches, build)| ==>
              Flatten(Stored(SavedBatches(batches, build), store)) == Successes(Flatten(batches), build)
  {
    var all := SavedBatches(batches, build);
    var k := FirstRejected(all, store);
    SavedIsEverySuccess(batches, build);
    assert all == all[..k] + all[k..];
    FlattenAppend(all[..k], all[k..]);
  }

  /** The batch loop of the embedding scripts' `main`: for each batch, build
      the records one by one, counting each success, and insert the batch's
      records when there are any. A rejected insert throws out of `main`
      (the `catch` ends the process), so the later batches are never built
      or stored, and the final count is not reported. */
  method RunBatches<T, R>(batches: seq<seq<T>>, build: T -> Option<R>, store: seq<R> -> bool)
    returns (stored: seq<seq<R>>, completed: bool, processedCount: nat)
    ensures stored == Stored(SavedBatches(batches, build), store)
    ensures completed <==> FirstRejected(SavedBatches(batches, build), store) == |SavedBatches(batches, build)|
    ensures completed ==> processedCount == |Successes(Flatten(batches), build)|
    ensures !completed ==>
              processedCount == |Flatten(SavedBatches(batches, build)[..FirstRejected(SavedBatches(batches, build), store) + 1])|
  {
    stored := [];
    completed := true;
    processedCount := 0;
    for b := 0 to |batches|
      invariant stored == SavedBatches(batches[..b], build)
      invariant forall j :: 0 <= j < |stored| ==> store(stored[j])
      invariant processedCount == |Flatten(stored)|
    {
      var batch := batches[b];
      var data: seq<R> := [];
      for j := 0 to |batch|
        invariant data == Successes(batch[..j], build)
        invariant processedCount == |Flatten(stored)| + |data|
      {
        assert batch[..j + 1][..j] == batch[..j];
        var record := build(batch[j]);
        if record.Some? {
          data := data + [record.value];
          processedCount := processedCount + 1;
        }
      }
      assert batch[..|batch|] == batch;
      assert batches[..b + 1][..b] == batches[..b];
      FlattenAppend(stored, [data]);
      assert Flatten([data]) == data + Flatten([data][1..]);
      if |data| > 0 {
        if !store(data) {
          RejectedBatch(batches, build, store, b, stored, data);
          completed := false;
          break;
        }
        stored := stored + [data];
      }
    }
    if completed {
      assert batches[..|batches|] == batches;
      FirstRejectedAfter(stored, [], store);
      assert stored + [] == stored;
      SavedIsEverySuccess(batches, build);
    }
  }

  /** The saved batches around input batch `b`. */
  lemma {:induction false} SavedBatchesAround<T, R>(batches: seq<seq<T>>, build: T -> Option<R>, b: nat)
    requires b < |batches|
    ensures var records := Successes(batches[b], build);
            SavedBatches(batches, build) ==
              SavedBatches(batches[..b], build) + (if records == [] then [] else [records]) +
              SavedBatches(batches[b + 1..], build)
  {
    var upTo := batches[..b + 1];
    assert upTo[..|upTo| - 1] == batches[..b];
    assert upTo[|upTo| - 1] == batches[b];
    assert batches == upTo + batches[b + 1..];
    SavedBatchesAppend(upTo, batches[b + 1..], build);
  }

  /** A rejected batch after accepted ones is the first rejection. */
  lemma RejectedAfterAccepted<R>(all: seq<seq<R>>, accepted: seq<seq<R>>, data: seq<R>, rest: seq<seq<R>>,
                                 store: seq<R> -> bool)
    requires all == accepted + [data] + rest
    requires forall j :: 0 <= j < |accepted| ==> store(accepted[j])
    requires !store(data)
    ensures |accepted| < |all|
    ensures FirstRejected(all, store) == |accepted|
    ensures all[..|accepted| + 1] == accepted + [data]
  {
    assert all == accepted + ([data] + rest);
    FirstRejectedAfter(accepted, [data] + rest, store);
  }

  /** The run stops at batch `b`: its records are the first batch the store
      rejects. */
  lemma RejectedBatch<T, R>(batches: seq<seq<T>>, build: T -> Option<R>, store: seq<R> -> bool,
                            b: nat, stored: seq<seq<R>>, data: seq<R>)
    requires b < |batches|
    requires stored == SavedBatches(batches[..b], build)
    requires forall j :: 0 <= j < |stored| ==> store(stored[j])
    requires data == Successes(batches[b], build) && data != [] && !store(data)
    ensures |stored| < |SavedBatches(batches, build)|
    ensures FirstRejected(SavedBatches(batches, build), store) == |stored|
    ensures SavedBatches(batches, build)[..|stored| + 1] == stored + [data]
  {
    SavedBatchesAround(batches, build, b);
    RejectedAfterAccepted(SavedBatches(batches, build), stored, data, SavedBatches(batches[b + 1..], build), store);
  }



  // ---------------------------------------------------------------------------
  // The three embedding scripts

  const BatchSize := 100

  type Embedding = seq<real>

  /** A chat message; a missing `isAI` counts as false. */
  datatype Message = Message(content: string, isAI: bool)

  datatype Conversation = Conversation(conversation: seq<Message>)

  datatype ConversationRecord = ConversationRecord(content: Conversation, embedding: Embedding)

  /** The contents of the user's messages, in order. */
  function UserContents(msgs: seq<Message>): seq<string> {
    if msgs == [] then []
    else UserContents(msgs[..|msgs| - 1]) + (if msgs[|msgs| - 1].isAI then [] else [msgs[|msgs| - 1].content])
  }

  /** `extractUserMessages`. */
  function ExtractUserMessages(c: Conversation): string {
    Join(UserContents(c.conversation), " ")
  }

  /** Picking the user's messages commutes with joining conversations, and
      one message contributes its content exactly when it is not the
      assistant's. */
  lemma {:induction false} UserContentsAppend(a: seq<Message>, b: seq<Message>)
    ensures UserContents(a + b) == UserContents(a) + UserContents(b)
  {
    if b != [] {
      var c := a + b;
      assert c[..|c| - 1] == a + b[..|b| - 1];
      assert c[|c| - 1] == b[|b| - 1];
      UserContentsAppend(a, b[..|b| - 1]);
    } else {
      assert a + b == a;
    }
  }

  lemma UserContentsOfOne(m: Message)
    ensures UserContents([m]) == if m.isAI then [] else [m.content]
  {
    assert [m][..0] == [];
  }

  /** The text embedded for a conversation holds every message the user
      sent, and is empty when the assistant sent them all. */
  lemma UserMessagesExtracted(c: Conversation)
    ensures forall k :: 0 <= k < |c.conversation| && !c.conversation[k].isAI ==>
              Contains(ExtractUserMessages(c), c.conversation[k].content)
    ensures (forall k :: 0 <= k < |c.conversation| ==> c.conversation[k].isAI) ==> ExtractUserMessages(c) == ""
  {
    var contents := UserContents(c.conversation);
    forall k | 0 <= k < |c.conversation| && !c.conversation[k].isAI
      ensures Contains(ExtractUserMessages(c), c.conversation[k].content)
    {
      UserContentIn(c.conversation, k);
      var j :| 0 <= j < |contents| && contents[j] == c.conversation[k].content;
      JoinContains(contents, " ", j);
    }
    if forall k :: 0 <= k < |c.conversation| ==> c.conversation[k].isAI {
      NoUserContents(c.conversation);
    }
  }

  lemma {:induction false} UserContentIn(msgs: seq<Message>, k: nat)
    requires k < |msgs| && !msgs[k].isAI
    ensures msgs[k].content in UserContents(msgs)
    decreases |msgs|
  {
    var init := msgs[..|msgs| - 1];
    if k < |msgs| - 1 {
      assert init[k] == msgs[k];
      UserContentIn(init, k);
    }
  }

  lemma {:induction false} NoUserContents(msgs: seq<Message>)
    requires forall k :: 0 <= k < |msgs| ==> msgs[k].isAI
    ensures UserContents(msgs) == []
    decreases |msgs|
  {
    if msgs != [] {
      var init := msgs[..|msgs| - 1];
      assert forall k :: 0 <= k < |init| ==> init[k] == msgs[k];
      NoUserContents(init);
    }
  }

  function BuildConversation(c: Conversation, embed: string -> Option<Embedding>): Option<ConversationRecord> {
    match embed(ExtractUserMessages(c))
    case Some(e) => Some(ConversationRecord(c, e))
    case None => None
  }

  function ConversationBuilder(embed: string -> Option<Embedding>): Conversation -> Option<ConversationRecord> {
    c => BuildConversation(c, embed)
  }

  /** `main` of the conversation embedding script. */
  method ConversationEmbeddingMain(conversations: seq<Conversation>, embed: string -> Option<Embedding>,
                                   store: seq<ConversationRecord> -> bool)
    returns (stored: seq<seq<ConversationRecord>>, completed: bool, processedCount: nat)
    ensures stored == Stored(SavedBatches(Batches(conversations, BatchSize), ConversationBuilder(embed)), store)
    ensures completed <==> FirstRejected(SavedBatches(Batches(conversations, BatchSize), ConversationBuilder(embed)), store) ==
                           |SavedBatches(Batches(conversations, BatchSize), ConversationBuilder(embed))|
    ensures Flatten(stored) <= Successes(conversations, ConversationBuilder(embed))
    ensures completed ==> Flatten(stored) == Successes(conversations, ConversationBuilder(embed)) && processedCount == |Flatten(stored)|
  {
    var batches := ProcessInBatches(conversations, BatchSize);
    stored, completed, processedCount := RunBatches(batches, ConversationBuilder(embed), store);
    BatchesPartition(conversations, BatchSize);
    StoredIsPrefix(batches, ConversationBuilder(embed), store);
  }


  /** A question with its answer as the file holds them. */
  datatype QaElement = QaElement(question: string, answer: Option<string>, ids: Option<seq<int>>)

  datatype QaRecord = QaRecord(question: string, questionVec: Embedding, answer: Option<string>, relevantSegments: seq<int>)

  /** `answer || null`: a missing or empty answer becomes null. */
  function AnswerOrNull(answer: Option<string>): Option<string> {
    if answer.Some? && answer.value != "" then answer else None
  }

  function BuildQa(e: QaElement, embed: string -> Option<Embedding>): Option<QaRecord> {
    match embed(e.question)
    case Some(v) => Some(QaRecord(e.question, v, AnswerOrNull(e.answer), if e.ids.Some? then e.ids.value else []))
    case None => None
  }

  /** A built record keeps the question, has a null answer exactly when the
      source answer is falsy, and has no relevant segments when the source
      has no ids. */
  lemma QaRecordDefaults(e: QaElement, embed: string -> Option<Embedding>)
    ensures BuildQa(e, embed).Some? <==> embed(e.question).Some?
    ensures BuildQa(e, embed).Some? ==>
              var r := BuildQa(e, embed).value;
              r.question == e.question &&
              (r.answer.None? <==> e.answer.None? || e.answer.value == "") &&
              (r.answer.Some? ==> r.answer == e.answer) &&
              (e.ids.None? ==> r.relevantSegments == []) &&
              (e.ids.Some? ==> r.relevantSegments == e.ids.value)
  {
  }

  function QaBuilder(embed: string -> Option<Embedding>): QaElement -> Option<QaRecord> {
    e => BuildQa(e, embed)
  }

  /** `main` of the question embedding script. */
  method QuestionEmbeddingMain(questions: seq<QaElement>, embed: string -> Option<Embedding>,
                               store: seq<QaRecord> -> bool)
    returns (stored: seq<seq<QaRecord>>, completed: bool, processedCount: nat)
    ensures stored == Stored(SavedBatches(Batches(questions, BatchSize), QaBuilder(embed)), store)
    ensures completed <==> FirstRejected(SavedBatches(Batches(questions, BatchSize), QaBuilder(embed)), store) ==
                           |SavedBatches(Batches(questions, BatchSize), QaBuilder(embed))|
    ensures Flatten(stored) <= Successes(questions, QaBuilder(embed))
    ensures completed ==> Flatten(stored) == Successes(questions, QaBuilder(embed)) && processedCount == |Flatten(stored)|
  {
    var batches := ProcessInBatches(questions, BatchSize);
    stored, completed, processedCount := RunBatches(batches, QaBuilder(embed), store);
    BatchesPartition(questions, BatchSize);
    StoredIsPrefix(batches, QaBuilder(embed), store);
  }


  /** A paragraph segment of an article. */
  datatype Segment = Segment(url: string, title: string, content: string, segment: int)

  datatype SegmentRecord = SegmentRecord(url: string, title: string, content: string, segment: int, embedding: Embedding)

  function BuildSegment(s: Segment, embed: string -> Option<Embedding>): Option<SegmentRecord> {
    match embed(s.content)
    case Some(e) => Some(SegmentRecord(s.url, s.title, s.content, s.segment, e))
    case None => None
  }

  function SegmentBuilder(embed: string -> Option<Embedding>): Segment -> Option<SegmentRecord> {
    s => BuildSegment(s, embed)
  }

  /** The body of `main` of the segment embedding script, as if the file
      loaded: as written, its ES `export` next to CommonJS `require` keeps
      it from loading at all. */
  method SegmentEmbeddingMain(segments: seq<Segment>, embed: string -> Option<Embedding>,
                              store: seq<SegmentRecord> -> bool)
    returns (stored: seq<seq<SegmentRecord>>, completed: bool, processedCount: nat)
    ensures stored == Stored(SavedBatches(Batches(segments, BatchSize), SegmentBuilder(embed)), store)
    ensures completed <==> FirstRejected(SavedBatches(Batches(segments, BatchSize), SegmentBuilder(embed)), store) ==
                           |SavedBatches(Batches(segments, BatchSize), SegmentBuilder(embed))|
    ensures Flatten(stored) <= Successes(segments, SegmentBuilder(embed))
    ensures completed ==> Flatten(stored) == Successes(segments, SegmentBuilder(embed)) && processedCount == |Flatten(stored)|
  {
    var batches := ProcessInBatches(segments, BatchSize);
    stored, completed, processedCount := RunBatches(batches, SegmentBuilder(embed), store);
    BatchesPartition(segments, BatchSize);
    StoredIsPrefix(batches, SegmentBuilder(embed), store);
  }


  /** `r` is the record built from segment `s`. */
  predicate RecordOf(r: SegmentRecord, s: Segment, embed: string -> Option<Embedding>) {
    embed(s.content).Some? && r == SegmentRecord(s.url, s.title, s.content, s.segment, embed(s.content).value)
  }

  /** Each saved segment record is one whose embedding succeeded, copying
      its url, title, content and segment number. */
  lemma {:induction false} SegmentRecordsCopySegments(segments: seq<Segment>, embed: string -> Option<Embedding>)
    ensures forall k :: 0 <= k < |Successes(segments, SegmentBuilder(embed))| ==>
              exists i :: 0 <= i < |segments| && RecordOf(Successes(segments, SegmentBuilder(embed))[k], segments[i], embed)
  {
    if segments != [] {
      var init := segments[..|segments| - 1];
      var rs := Successes(segments, SegmentBuilder(embed));
      var before := Successes(init, SegmentBuilder(embed));
      SegmentRecordsCopySegments(init, embed);
      forall k | 0 <= k < |rs|
        ensures exists i :: 0 <= i < |segments| && RecordOf(rs[k], segments[i], embed)
      {
        if k < |before| {
          var i :| 0 <= i < |init| && RecordOf(before[k], init[i], embed);
          assert init[i] == segments[i];
        } else {
          assert RecordOf(rs[k], segments[|segments| - 1], embed);
        }
      }
    } else {
      assert Successes(segments, SegmentBuilder(embed)) == [];
    }
  }
}
