/** Prompt rendering of the Python chat service: the chat history, the blog
    references, the similar Q&A pairs and conversations, and the final
    prompt whose optional sections appear only when their text is not empty
    (`format_chat_history`, `extract_date_from_url`, `format_context_segments`,
    `format_similar_questions`, `format_similar_conversations`,
    `combine_into_prompt`, and `create_chat_completion` up to the model call).
    The current date is a parameter. */
module PromptAssembly {
  import opened Text
  import opened DatePath
  import opened ContextFusion

  // ---------------------------------------------------------------------------
  // Chat history

  /** `Shubh: <content>` for the clone's messages, `User: <content>` otherwise. */
  function HistoryLine(m: Message): string {
    (if m.isAI then "Shubh" else "User") + ": " + m.content
  }

  /** One line per message, in order. */
  function HistoryLines(ms: seq<Message>): (lines: seq<string>)
    ensures |lines| == |ms|
    ensures forall i :: 0 <= i < |ms| ==> lines[i] == HistoryLine(ms[i])
  {
    seq(|ms|, i requires 0 <= i < |ms| => HistoryLine(ms[i]))
  }

  /** `format_chat_history`: when the last message is the user's it is popped
      from a copy and returned on its own; otherwise every message stays in
      the history and there is no last message. The caller's list is a value
      here and so is never changed. */
  method FormatChatHistory(messages: seq<Message>) returns (formatted: string, lastMessage: Option<string>)
    ensures messages != [] && !messages[|messages| - 1].isAI ==>
              lastMessage == Some(messages[|messages| - 1].content) &&
              formatted == Join(HistoryLines(messages[..|messages| - 1]), "\n")
    ensures messages == [] || messages[|messages| - 1].isAI ==>
              lastMessage == None && formatted == Join(HistoryLines(messages), "\n")
  {
    lastMessage := None;
    var copy := messages;
    if |copy| > 0 && !copy[|copy| - 1].isAI {
      lastMessage := Some(copy[|copy| - 1].content);
      copy := copy[..|copy| - 1];
    }
    formatted := Join(HistoryLines(copy), "\n");
  }

  /** The functional reading of `format_chat_history`, for use in other
      specifications. */
  function ChatHistory(messages: seq<Message>): (string, Option<string>) {
    if messages != [] && !messages[|messages| - 1].isAI then
      (Join(HistoryLines(messages[..|messages| - 1]), "\n"), Some(messages[|messages| - 1].content))
    else (Join(HistoryLines(messages), "\n"), None)
  }

  /** Appending a user message to a history that ends with the clone's reply
      hands that message over as the question and leaves the earlier history
      as it was formatted before. */
  lemma ChatHistoryOfNewQuestion(history: seq<Message>, question: string)
    ensures ChatHistory(history + [Message(question, false)]) ==
            (Join(HistoryLines(history), "\n"), Some(question))
  {
    assert (history + [Message(question, false)])[..|history|] == history;
  }

  // ---------------------------------------------------------------------------
  // Dates

  /** `extract_date_from_url`: `"<Month> <year>"` for the first `/YYYY/MM/`
      fragment, `"Date unknown"` without one; `datetime` rejects year 0 and a
      month outside 1..12, which the model reports as a failure. */
  function ExtractDateFromUrl(url: string): (r: Result<string>)
    ensures Search(url).None? ==> r == Ok("Date unknown")
    ensures Search(url).Some? ==>
              var y := DigitsValue(Search(url).value.year);
              var m := DigitsValue(Search(url).value.month);
              (r.Failure? <==> y == 0 || m < 1 || m > 12)
  {
    match Search(url)
    case None => Ok("Date unknown")
    case Some(f) =>
      var y := DigitsValue(f.year);
      var m := DigitsValue(f.month);
      if y == 0 || m < 1 || m > 12 then Failure("ValueError: date out of range")
      else Ok(MonthName(m) + " " + NatToString(y))
  }

  /** A four-digit year renders with four digits. */
  lemma {:induction false} FourDigitYear(y: nat)
    requires 1000 <= y <= 9999
    ensures |NatToString(y)| == 4
  {
    assert NatToString(y) == NatToString(y / 10) + [DigitChar(y % 10)];
    assert NatToString(y / 10) == NatToString(y / 100) + [DigitChar(y / 10 % 10)];
    assert NatToString(y / 100) == NatToString(y / 1000) + [DigitChar(y / 100 % 10)];
  }

  /** Round trip: a URL whose first date fragment spells year `y` and month
      `m` dates to that month's name and that year. */
  lemma DateOfMonthUrl(prefix: string, y: nat, m: nat, rest: string)
    requires 1000 <= y <= 9999 && 1 <= m <= 12
    requires forall i :: 0 <= i < |prefix| ==>
               !DatePathAt(prefix + "/" + NatToString(y) + "/" + PadTwo(m) + "/" + rest, i)
    ensures ExtractDateFromUrl(prefix + "/" + NatToString(y) + "/" + PadTwo(m) + "/" + rest) ==
            Ok(MonthName(m) + " " + NatToString(y))
  {
    FourDigitYear(y);
    DigitsValueOfNatToString(y);
    SearchFindsFragment(prefix, NatToString(y), PadTwo(m), rest);
  }

  // ---------------------------------------------------------------------------
  // Formatters

  /** One blog reference, labelled with the segment's database id. */
  function ReferenceBlock(s: SegmentRow, date: string): string {
    "[Reference " + IntToString(s.id) + " - " + date + "]:\n" + s.content
  }

  /** The dates of all segments, or the first failure. */
  function SegmentDates(segments: seq<SegmentRow>): (r: Result<seq<string>>)
    ensures r.Ok? ==> (|r.value| == |segments| &&
              forall i :: 0 <= i < |segments| ==> ExtractDateFromUrl(segments[i].url) == Ok(r.value[i]))
    ensures r.Failure? <==> exists i :: 0 <= i < |segments| && ExtractDateFromUrl(segments[i].url).Failure?
  {
    if segments == [] then Ok([])
    else
      match ExtractDateFromUrl(segments[0].url)
      case Failure(e) => Failure(e)
      case Ok(d) =>
        match SegmentDates(segments[1..])
        case Failure(e) =>
          assert exists i :: 0 <= i < |segments| && ExtractDateFromUrl(segments[i].url).Failure? by {
            var i :| 0 <= i < |segments[1..]| && ExtractDateFromUrl(segments[1..][i].url).Failure?;
            assert segments[i + 1] == segments[1..][i];
          }
          Failure(e)
        case Ok(ds) =>
          assert forall i :: 1 <= i < |segments| ==> segments[i] == segments[1..][i - 1];
          Ok([d] + ds)
  }

  /** `format_context_segments`: one reference block per segment, joined by
      blank lines; it raises as soon as one URL carries an invalid date. */
  function FormatContextSegments(segments: seq<SegmentRow>): (r: Result<string>)
    ensures r.Failure? <==> exists i :: 0 <= i < |segments| && ExtractDateFromUrl(segments[i].url).Failure?
    ensures segments == [] ==> r == Ok("")
    ensures r.Ok? ==>
              r.value == Join(seq(|segments|, i requires 0 <= i < |segments| && ExtractDateFromUrl(segments[i].url).Ok? =>
                                    ReferenceBlock(segments[i], ExtractDateFromUrl(segments[i].url).value)), "\n\n")
  {
    match SegmentDates(segments)
    case Failure(e) => Failure(e)
    case Ok(dates) =>
      var blocks := seq(|segments|, i requires 0 <= i < |segments| => ReferenceBlock(segments[i], dates[i]));
      assert blocks == seq(|segments|, i requires 0 <= i < |segments| && ExtractDateFromUrl(segments[i].url).Ok? =>
                             ReferenceBlock(segments[i], ExtractDateFromUrl(segments[i].url).value));
      Ok(Join(blocks, "\n\n"))
  }

  /** The `k`-th reference block (from 0) is labelled with that segment's
      database id, not its position, and dated by its own URL. */
  lemma ReferencesLabelledById(segments: seq<SegmentRow>, k: nat)
    requires k < |segments|
    requires FormatContextSegments(segments).Ok?
    ensures ExtractDateFromUrl(segments[k].url).Ok?
    ensures Contains(FormatContextSegments(segments).value,
                     "[Reference " + IntToString(segments[k].id) + " - " + ExtractDateFromUrl(segments[k].url).value +
                     "]:\n" + segments[k].content)
  {
    var blocks := seq(|segments|, i requires 0 <= i < |segments| && ExtractDateFromUrl(segments[i].url).Ok? =>
                    ReferenceBlock(segments[i], ExtractDateFromUrl(segments[i].url).value));
    JoinContains(blocks, "\n\n", k);
  }

  /** Python's rendering of an optional string: `None` prints as "None". */
  function OptionText(o: Option<string>): string {
    match o
    case None => "None"
    case Some(s) => s
  }

  /** The `n`-th Q&A block (numbered from 1). */
  function QuestionBlock(n: nat, q: QuestionRow): string {
    "[Similar Q&A " + NatToString(n) + "]:\nQuestion: " + q.question + "\nAnswer: " + OptionText(q.answer)
  }

  /** `format_similar_questions`: the Q&A blocks numbered from 1, joined by
      blank lines; empty exactly when there are no pairs. */
  function FormatSimilarQuestions(questions: seq<QuestionRow>): (r: string)
    ensures r == "" <==> questions == []
  {
    if questions == [] then ""
    else
      var blocks := seq(|questions|, i requires 0 <= i < |questions| => QuestionBlock(i + 1, questions[i]));
      JoinStartsWithFirst(blocks, "\n\n");
      Join(blocks, "\n\n")
  }

  /** The `k`-th pair (from 0) appears under the number `k + 1`. */
  lemma QuestionsNumberedFromOne(questions: seq<QuestionRow>, k: nat)
    requires k < |questions|
    ensures Contains(FormatSimilarQuestions(questions), QuestionBlock(k + 1, questions[k]))
  {
    var blocks := seq(|questions|, i requires 0 <= i < |questions| => QuestionBlock(i + 1, questions[i]));
    JoinContains(blocks, "\n\n", k);
  }

  // ---------------------------------------------------------------------------
  // Similar conversations

  /** One message of a stored conversation, indented and quoted. */
  function ConversationLine(m: Message): string {
    "    " + (if m.isAI then "Shubh" else "User") + ":\n    \"" + m.content + "\""
  }

  function ConversationLines(ms: seq<Message>): (lines: seq<string>)
    ensures |lines| == |ms|
  {
    seq(|ms|, j requires 0 <= j < |ms| => ConversationLine(ms[j]))
  }

  /** The `n`-th conversation block (numbered from 1). */
  function ConversationBlock(n: nat, c: ConversationRow): string {
    "[Similar Conversation " + NatToString(n) + "]:\n" + Join(ConversationLines(c.conversation), "\n\n")
  }

  function ConversationBlocks(cs: seq<ConversationRow>): (blocks: seq<string>)
    ensures |blocks| == |cs|
  {
    seq(|cs|, i requires 0 <= i < |cs| => ConversationBlock(i + 1, cs[i]))
  }

  /** The text `format_similar_conversations` produces: the conversation
      blocks numbered from 1 and joined by blank lines, empty exactly when
      there are no conversations. */
  function SimilarConversationsText(cs: seq<ConversationRow>): (r: string)
    ensures r == "" <==> cs == []
  {
    if cs == [] then ""
    else
      JoinStartsWithFirst(ConversationBlocks(cs), "\n\n");
      Join(ConversationBlocks(cs), "\n\n")
  }

  /** `format_similar_conversations`, with its two append loops. */
  method FormatSimilarConversations(conversations: seq<ConversationRow>) returns (text: string)
    ensures text == SimilarConversationsText(conversations)
  {
    if conversations == [] {
      return "";
    }
    var formattedConvs: seq<string> := [];
    for i := 0 to |conversations|
      invariant formattedConvs == ConversationBlocks(conversations)[..i]
    {
      var msgs := conversations[i].conversation;
      var formattedMsgs: seq<string> := [];
      for j := 0 to |msgs|
        invariant formattedMsgs == ConversationLines(msgs)[..j]
      {
        var role := if msgs[j].isAI then "Shubh" else "User";
        formattedMsgs := formattedMsgs + ["    " + role + ":\n    \"" + msgs[j].content + "\""];
      }
      assert formattedMsgs == ConversationLines(msgs);
      formattedConvs := formattedConvs + ["[Similar Conversation " + NatToString(i + 1) + "]:\n" + Join(formattedMsgs, "\n\n")];
    }
    assert formattedConvs == ConversationBlocks(conversations);
    text := Join(formattedConvs, "\n\n");
  }

  /** The `k`-th conversation (from 0) appears under the number `k + 1`. */
  lemma ConversationsNumberedFromOne(cs: seq<ConversationRow>, k: nat)
    requires k < |cs|
    ensures Contains(SimilarConversationsText(cs), ConversationBlock(k + 1, cs[k]))
  {
    JoinContains(ConversationBlocks(cs), "\n\n", k);
  }

  // ---------------------------------------------------------------------------
  // The prompt

  /** A calendar date, standing for `datetime.now()`. */
  datatype CalendarDate = CalendarDate(year: nat, month: nat, day: nat)

  predicate ValidDate(d: CalendarDate) {
    1 <= d.year <= 9999 && 1 <= d.month <= 12 && 1 <= d.day <= 31
  }

  /** `strftime('%B %d, %Y')`. */
  function DateText(d: CalendarDate): string
    requires ValidDate(d)
  {
    MonthName(d.month) + " " + PadTwo(d.day) + ", " + NatToString(d.year)
  }

  const BlogHeader := "Context from the blog:\n"
  const QuestionsHeader := "Similar Questions and Answers. If a question is very close to the current question, replicate the answer very closely as relevant:\n"
  const HistoryHeader := "Here is the conversation history so far:\n"
  const ConversationsHeader := "We found a similar conversation that the real Shubh has had that might be relevant. If the content is similar follow this conversation history very closely. Espically focus on how Shubh asks the user questions to clarify the situation before making his response:\n"

  /** An optional section: nothing when its text is empty. */
  function Section(header: string, text: string): (r: string)
    ensures r == "" <==> text == ""
  {
    if text == "" then "" else "&&&\n" + header + text + "\n\n"
  }

  /** The system prompt and the date, up to the first optional section. */
  function PromptHead(system: string, today: CalendarDate): string
    requires ValidDate(today)
  {
    system + "\n\n        &&&\n        Today's date: " + DateText(today) + "\n\n        \n        \n        "
  }

  /** The last line: the quoted current question. */
  function QuestionLine(question: string): string {
    "Current question that you are answering: \"" + question + "\" "
  }

  /** The closing marker and the current question (`None` prints as "None"). */
  function PromptTail(current: Option<string>): string {
    "\n        &&&\n        " + QuestionLine(OptionText(current))
  }

  /** The fixed frame of the prompt around the four optional sections. */
  function Layout(head: string, s1: string, s2: string, s3: string, s4: string, tail: string): string {
    Frame(head, s1, "\n\n        ", s2, "\n        ", s3, s4, tail)
  }

  /** Head, four pieces with separator `a` after the first and `b` after the
      second and third, and tail. */
  function Frame(h: string, s1: string, a: string, s2: string, b: string, s3: string, s4: string, t: string): string {
    h + s1 + a + s2 + b + s3 + b + s4 + t
  }

  /** `combine_into_prompt`. */
  function CombineIntoPrompt(system: string, history: string, blog: string, questions: string,
                             conversations: string, current: Option<string>, today: CalendarDate): (r: string)
    requires ValidDate(today)
    ensures |PromptHead(system, today)| + |PromptTail(current)| <= |r|
    ensures r[..|PromptHead(system, today)|] == PromptHead(system, today)
    ensures r[|r| - |PromptTail(current)|..] == PromptTail(current)
  {
    var head := PromptHead(system, today);
    var tail := PromptTail(current);
    var r := Layout(head, Section(BlogHeader, blog), Section(QuestionsHeader, questions),
                    Section(HistoryHeader, history), Section(ConversationsHeader, conversations), tail);
    LayoutEnds(head, Section(BlogHeader, blog), Section(QuestionsHeader, questions),
               Section(HistoryHeader, history), Section(ConversationsHeader, conversations), tail);
    r
  }

  lemma LayoutEnds(head: string, s1: string, s2: string, s3: string, s4: string, tail: string)
    ensures var r := Layout(head, s1, s2, s3, s4, tail);
            |head| + |tail| <= |r| && r[..|head|] == head && r[|r| - |tail|..] == tail
  {
    FrameEnds(head, s1, "\n\n        ", s2, "\n        ", s3, s4, tail);
  }

  lemma FrameEnds(head: string, s1: string, a: string, s2: string, b: string, s3: string, s4: string, tail: string)
    ensures var r := Frame(head, s1, a, s2, b, s3, s4, tail);
            |head| + |tail| <= |r| && r[..|head|] == head && r[|r| - |tail|..] == tail
  {
    var body := s1 + a + s2 + b + s3 + b + s4;
    assert Frame(head, s1, a, s2, b, s3, s4, tail) == head + body + tail;
    assert (head + body + tail)[..|head|] == head;
    assert (head + body + tail)[|head| + |body|..] == tail;
  }

  /** Each piece of the frame, inserted into the frame built without it. */
  lemma FrameInsertions(h: string, s1: string, a: string, s2: string, b: string, s3: string, s4: string, t: string)
    ensures Frame(h, s1, a, s2, b, s3, s4, t) ==
            Frame(h, "", a, s2, b, s3, s4, t)[..|h|] + s1 + Frame(h, "", a, s2, b, s3, s4, t)[|h|..]
    ensures Frame(h, s1, a, s2, b, s3, s4, t) ==
            Frame(h, s1, a, "", b, s3, s4, t)[..|h + s1 + a|] + s2 + Frame(h, s1, a, "", b, s3, s4, t)[|h + s1 + a|..]
    ensures Frame(h, s1, a, s2, b, s3, s4, t) ==
            Frame(h, s1, a, s2, b, "", s4, t)[..|h + s1 + a + s2 + b|] + s3 +
            Frame(h, s1, a, s2, b, "", s4, t)[|h + s1 + a + s2 + b|..]
    ensures Frame(h, s1, a, s2, b, s3, s4, t) ==
            Frame(h, s1, a, s2, b, s3, "", t)[..|h + s1 + a + s2 + b + s3 + b|] + s4 +
            Frame(h, s1, a, s2, b, s3, "", t)[|h + s1 + a + s2 + b + s3 + b|..]
  {
    InsertFirst(h, s1, a, s2, b, s3, s4, t);
    InsertSecond(h, s1, a, s2, b, s3, s4, t);
    InsertThird(h, s1, a, s2, b, s3, s4, t);
    InsertFourth(h, s1, a, s2, b, s3, s4, t);
  }

  lemma InsertFirst(h: string, s1: string, a: string, s2: string, b: string, s3: string, s4: string, t: string)
    ensures Frame(h, s1, a, s2, b, s3, s4, t) ==
            Frame(h, "", a, s2, b, s3, s4, t)[..|h|] + s1 + Frame(h, "", a, s2, b, s3, s4, t)[|h|..]
  {
    var z := a + s2 + b + s3 + b + s4 + t;
    InsertionAt(h, s1, z);
    assert Frame(h, "", a, s2, b, s3, s4, t) == h + z;
    assert Frame(h, s1, a, s2, b, s3, s4, t) == h + s1 + z;
  }

  lemma InsertSecond(h: string, s1: string, a: string, s2: string, b: string, s3: string, s4: string, t: string)
    ensures Frame(h, s1, a, s2, b, s3, s4, t) ==
            Frame(h, s1, a, "", b, s3, s4, t)[..|h + s1 + a|] + s2 + Frame(h, s1, a, "", b, s3, s4, t)[|h + s1 + a|..]
  {
    var x := h + s1 + a;
    var z := b + s3 + b + s4 + t;
    InsertionAt(x, s2, z);
    assert Frame(h, s1, a, "", b, s3, s4, t) == x + z;
    assert Frame(h, s1, a, s2, b, s3, s4, t) == x + s2 + z;
  }

  lemma InsertThird(h: string, s1: string, a: string, s2: string, b: string, s3: string, s4: string, t: string)
    ensures Frame(h, s1, a, s2, b, s3, s4, t) ==
            Frame(h, s1, a, s2, b, "", s4, t)[..|h + s1 + a + s2 + b|] + s3 +
            Frame(h, s1, a, s2, b, "", s4, t)[|h + s1 + a + s2 + b|..]
  {
    var x := h + s1 + a + s2 + b;
    var z := b + s4 + t;
    InsertionAt(x, s3, z);
    assert Frame(h, s1, a, s2, b, "", s4, t) == x + z;
    assert Frame(h, s1, a, s2, b, s3, s4, t) == x + s3 + z;
  }

  lemma InsertFourth(h: string, s1: string, a: string, s2: string, b: string, s3: string, s4: string, t: string)
    ensures Frame(h, s1, a, s2, b, s3, s4, t) ==
            Frame(h, s1, a, s2, b, s3, "", t)[..|h + s1 + a + s2 + b + s3 + b|] + s4 +
            Frame(h, s1, a, s2, b, s3, "", t)[|h + s1 + a + s2 + b + s3 + b|..]
  {
    var x := h + s1 + a + s2 + b + s3 + b;
    InsertionAt(x, s4, t);
    assert Frame(h, s1, a, s2, b, s3, "", t) == x + t;
  }

  lemma InsertionAt(x: string, y: string, z: string)
    ensures |x| <= |x + z| && x + y + z == (x + z)[..|x|] + y + (x + z)[|x|..]
  {
    assert (x + z)[..|x|] == x;
    assert (x + z)[|x|..] == z;
  }

  /** Each optional section is exactly an insertion into the prompt built
      without it: present when its text is not empty, absent otherwise, and
      always between the same neighbours (blog, then Q&A, then history, then
      conversations). */
  lemma SectionsAreInsertions(system: string, history: string, blog: string, questions: string,
                              conversations: string, current: Option<string>, today: CalendarDate)
    requires ValidDate(today)
    ensures var full := CombineIntoPrompt(system, history, blog, questions, conversations, current, today);
            var k := |PromptHead(system, today)|;
            var none := CombineIntoPrompt(system, history, "", questions, conversations, current, today);
            k <= |none| && full == none[..k] + Section(BlogHeader, blog) + none[k..]
    ensures var full := CombineIntoPrompt(system, history, blog, questions, conversations, current, today);
            var k := |PromptHead(system, today) + Section(BlogHeader, blog) + "\n\n        "|;
            var none := CombineIntoPrompt(system, history, blog, "", conversations, current, today);
            k <= |none| && full == none[..k] + Section(QuestionsHeader, questions) + none[k..]
    ensures var full := CombineIntoPrompt(system, history, blog, questions, conversations, current, today);
            var k := |PromptHead(system, today) + Section(BlogHeader, blog) + "\n\n        " +
                      Section(QuestionsHeader, questions) + "\n        "|;
            var none := CombineIntoPrompt(system, "", blog, questions, conversations, current, today);
            k <= |none| && full == none[..k] + Section(HistoryHeader, history) + none[k..]
    ensures var full := CombineIntoPrompt(system, history, blog, questions, conversations, current, today);
            var k := |PromptHead(system, today) + Section(BlogHeader, blog) + "\n\n        " +
                      Section(QuestionsHeader, questions) + "\n        " + Section(HistoryHeader, history) + "\n        "|;
            var none := CombineIntoPrompt(system, history, blog, questions, "", current, today);
            k <= |none| && full == none[..k] + Section(ConversationsHeader, conversations) + none[k..]
  {
    BlogSectionInserted(system, history, blog, questions, conversations, current, today);
    QuestionsSectionInserted(system, history, blog, questions, conversations, current, today);
    HistorySectionInserted(system, history, blog, questions, conversations, current, today);
    ConversationsSectionInserted(system, history, blog, questions, conversations, current, today);
  }

  lemma BlogSectionInserted(system: string, history: string, blog: string, questions: string,
                         conversations: string, current: Option<string>, today: CalendarDate)
    requires ValidDate(today)
    ensures var full := CombineIntoPrompt(system, history, blog, questions, conversations, current, today);
            var k := |PromptHead(system, today)|;
            var none := CombineIntoPrompt(system, history, "", questions, conversations, current, today);
            k <= |none| && full == none[..k] + Section(BlogHeader, blog) + none[k..]
  {
    assert Section(BlogHeader, "") == "";
    InsertFirst(PromptHead(system, today), Section(BlogHeader, blog), "\n\n        ", Section(QuestionsHeader, questions),
                 "\n        ", Section(HistoryHeader, history), Section(ConversationsHeader, conversations),
                 PromptTail(current));
  }

  lemma QuestionsSectionInserted(system: string, history: string, blog: string, questions: string,
                         conversations: string, current: Option<string>, today: CalendarDate)
    requires ValidDate(today)
    ensures var full := CombineIntoPrompt(system, history, blog, questions, conversations, current, today);
            var k := |PromptHead(system, today) + Section(BlogHeader, blog) + "\n\n        "|;
            var none := CombineIntoPrompt(system, history, blog, "", conversations, current, today);
            k <= |none| && full == none[..k] + Section(QuestionsHeader, questions) + none[k..]
  {
    assert Section(QuestionsHeader, "") == "";
    InsertSecond(PromptHead(system, today), Section(BlogHeader, blog), "\n\n        ", Section(QuestionsHeader, questions),
                 "\n        ", Section(HistoryHeader, history), Section(ConversationsHeader, conversations),
                 PromptTail(current));
  }

  lemma HistorySectionInserted(system: string, history: string, blog: string, questions: string,
                         conversations: string, current: Option<string>, today: CalendarDate)
    requires ValidDate(today)
    ensures var full := CombineIntoPrompt(system, history, blog, questions, conversations, current, today);
            var k := |PromptHead(system, today) + Section(BlogHeader, blog) + "\n\n        " +
                      Section(QuestionsHeader, questions) + "\n        "|;
            var none := CombineIntoPrompt(system, "", blog, questions, conversations, current, today);
            k <= |none| && full == none[..k] + Section(HistoryHeader, history) + none[k..]
  {
    assert Section(HistoryHeader, "") == "";
    InsertThird(PromptHead(system, today), Section(BlogHeader, blog), "\n\n        ", Section(QuestionsHeader, questions),
                 "\n        ", Section(HistoryHeader, history), Section(ConversationsHeader, conversations),
                 PromptTail(current));
  }

  lemma ConversationsSectionInserted(system: string, history: string, blog: string, questions: string,
                         conversations: string, current: Option<string>, today: CalendarDate)
    requires ValidDate(today)
    ensures var full := CombineIntoPrompt(system, history, blog, questions, conversations, current, today);
            var k := |PromptHead(system, today) + Section(BlogHeader, blog) + "\n\n        " +
                      Section(QuestionsHeader, questions) + "\n        " + Section(HistoryHeader, history) + "\n        "|;
            var none := CombineIntoPrompt(system, history, blog, questions, "", current, today);
            k <= |none| && full == none[..k] + Section(ConversationsHeader, conversations) + none[k..]
  {
    assert Section(ConversationsHeader, "") == "";
    InsertFourth(PromptHead(system, today), Section(BlogHeader, blog), "\n\n        ", Section(QuestionsHeader, questions),
                 "\n        ", Section(HistoryHeader, history), Section(ConversationsHeader, conversations),
                 PromptTail(current));
  }

  /** Where the four pieces sit in the frame. */
  lemma FramePositions(h: string, s1: string, a: string, s2: string, b: string, s3: string, s4: string, t: string)
    ensures var r := Frame(h, s1, a, s2, b, s3, s4, t);
            OccursAt(r, s1, |h|) && OccursAt(r, s2, |h + s1 + a|) && OccursAt(r, s3, |h + s1 + a + s2 + b|) &&
            OccursAt(r, s4, |h + s1 + a + s2 + b + s3 + b|)
  {
    FirstPieceAt(h, s1, a, s2, b, s3, s4, t);
    SecondPieceAt(h, s1, a, s2, b, s3, s4, t);
    ThirdPieceAt(h, s1, a, s2, b, s3, s4, t);
    PieceAt(h + s1 + a + s2 + b + s3 + b, s4, t, Frame(h, s1, a, s2, b, s3, s4, t));
  }

  lemma FirstPieceAt(h: string, s1: string, a: string, s2: string, b: string, s3: string, s4: string, t: string)
    ensures OccursAt(Frame(h, s1, a, s2, b, s3, s4, t), s1, |h|)
  {
    var z := a + s2 + b + s3 + b + s4 + t;
    assert Frame(h, s1, a, s2, b, s3, s4, t) == h + s1 + z;
    PieceAt(h, s1, z, Frame(h, s1, a, s2, b, s3, s4, t));
  }

  lemma SecondPieceAt(h: string, s1: string, a: string, s2: string, b: string, s3: string, s4: string, t: string)
    ensures OccursAt(Frame(h, s1, a, s2, b, s3, s4, t), s2, |h + s1 + a|)
  {
    var z := b + s3 + b + s4 + t;
    assert Frame(h, s1, a, s2, b, s3, s4, t) == (h + s1 + a) + s2 + z;
    PieceAt(h + s1 + a, s2, z, Frame(h, s1, a, s2, b, s3, s4, t));
  }

  lemma ThirdPieceAt(h: string, s1: string, a: string, s2: string, b: string, s3: string, s4: string, t: string)
    ensures OccursAt(Frame(h, s1, a, s2, b, s3, s4, t), s3, |h + s1 + a + s2 + b|)
  {
    var z := b + s4 + t;
    assert Frame(h, s1, a, s2, b, s3, s4, t) == (h + s1 + a + s2 + b) + s3 + z;
    PieceAt(h + s1 + a + s2 + b, s3, z, Frame(h, s1, a, s2, b, s3, s4, t));
  }

  /** Pieces of the frame that start with non-empty openings occur in order. */
  lemma FrameOrder(h: string, s1: string, a: string, s2: string, b: string, s3: string, s4: string, t: string,
                   o1: string, o2: string, o3: string, o4: string)
    requires 0 < |o1| <= |s1| && s1[..|o1|] == o1
    requires 0 < |o2| <= |s2| && s2[..|o2|] == o2
    requires 0 < |o3| <= |s3| && s3[..|o3|] == o3
    requires 0 < |o4| <= |s4| && s4[..|o4|] == o4
    ensures var r := Frame(h, s1, a, s2, b, s3, s4, t);
            exists i1, i2, i3, i4 :: |h| <= i1 < i2 < i3 < i4 &&
              OccursAt(r, o1, i1) && OccursAt(r, o2, i2) && OccursAt(r, o3, i3) && OccursAt(r, o4, i4)
  {
    var r := Frame(h, s1, a, s2, b, s3, s4, t);
    FramePositions(h, s1, a, s2, b, s3, s4, t);
    OccursPrefix(r, s1, |h|, o1);
    OccursPrefix(r, s2, |h + s1 + a|, o2);
    OccursPrefix(r, s3, |h + s1 + a + s2 + b|, o3);
    OccursPrefix(r, s4, |h + s1 + a + s2 + b + s3 + b|, o4);
  }

  /** When every optional text is present the four sections follow one
      another in the fixed order blog, Q&A, history, conversations. */
  lemma SectionsInOrder(system: string, history: string, blog: string, questions: string,
                        conversations: string, current: Option<string>, today: CalendarDate)
    requires ValidDate(today)
    requires blog != "" && questions != "" && history != "" && conversations != ""
    ensures var r := CombineIntoPrompt(system, history, blog, questions, conversations, current, today);
            exists i1, i2, i3, i4 :: |PromptHead(system, today)| <= i1 < i2 < i3 < i4 &&
              OccursAt(r, "&&&\n" + BlogHeader + blog, i1) &&
              OccursAt(r, "&&&\n" + QuestionsHeader + questions, i2) &&
              OccursAt(r, "&&&\n" + HistoryHeader + history, i3) &&
              OccursAt(r, "&&&\n" + ConversationsHeader + conversations, i4)
  {
    OpeningOfSection(BlogHeader, blog);
    OpeningOfSection(QuestionsHeader, questions);
    OpeningOfSection(HistoryHeader, history);
    OpeningOfSection(ConversationsHeader, conversations);
    assert CombineIntoPrompt(system, history, blog, questions, conversations, current, today) ==
           Frame(PromptHead(system, today), Section(BlogHeader, blog), "\n\n        ", Section(QuestionsHeader, questions),
                 "\n        ", Section(HistoryHeader, history), Section(ConversationsHeader, conversations),
                 PromptTail(current));
    FrameOrder(PromptHead(system, today), Section(BlogHeader, blog), "\n\n        ", Section(QuestionsHeader, questions),
               "\n        ", Section(HistoryHeader, history), Section(ConversationsHeader, conversations),
               PromptTail(current),
               "&&&\n" + BlogHeader + blog, "&&&\n" + QuestionsHeader + questions,
               "&&&\n" + HistoryHeader + history, "&&&\n" + ConversationsHeader + conversations);
  }

  lemma OpeningOfSection(header: string, text: string)
    requires text != ""
    ensures var o := "&&&\n" + header + text;
            |o| <= |Section(header, text)| && Section(header, text)[..|o|] == o
  {
    var o := "&&&\n" + header + text;
    assert Section(header, text) == o + "\n\n";
    assert (o + "\n\n")[..|o|] == o;
  }

  // ---------------------------------------------------------------------------
  // The whole prompt

  /** `create_chat_completion` up to the model call: the history is split
      off the messages, every retrieved list (missing lists count as empty)
      is formatted, and the pieces are combined; it raises when a segment URL
      carries an invalid date. */
  function AssemblePrompt(system: string, messages: seq<Message>, segments: Option<seq<SegmentRow>>,
                          questions: Option<seq<QuestionRow>>, conversations: Option<seq<ConversationRow>>,
                          today: CalendarDate): (r: Result<string>)
    requires ValidDate(today)
    ensures r.Failure? <==> (segments.Some? &&
              exists i :: 0 <= i < |segments.value| && ExtractDateFromUrl(segments.value[i].url).Failure?)
    ensures r.Ok? ==> |PromptTail(ChatHistory(messages).1)| <= |r.value| &&
                      r.value[|r.value| - |PromptTail(ChatHistory(messages).1)|..] == PromptTail(ChatHistory(messages).1)
  {
    var segs := if segments.Some? then segments.value else [];
    var qs := if questions.Some? then questions.value else [];
    var cs := if conversations.Some? then conversations.value else [];
    var (history, last) := ChatHistory(messages);
    match FormatContextSegments(segs)
    case Failure(e) => Failure(e)
    case Ok(blog) =>
      Ok(CombineIntoPrompt(system, history, blog, FormatSimilarQuestions(qs), SimilarConversationsText(cs), last, today))
  }

  /** The prompt closes with the user's newest message as the quoted current
      question, or with `"None"` when the clone spoke last. */
  lemma PromptEndsWithQuestion(system: string, messages: seq<Message>, segments: Option<seq<SegmentRow>>,
                               questions: Option<seq<QuestionRow>>, conversations: Option<seq<ConversationRow>>,
                               today: CalendarDate, p: string)
    requires ValidDate(today)
    requires AssemblePrompt(system, messages, segments, questions, conversations, today) == Ok(p)
    ensures var q := if messages != [] && !messages[|messages| - 1].isAI then messages[|messages| - 1].content
                     else "None";
            |QuestionLine(q)| <= |p| && p[|p| - |QuestionLine(q)|..] == QuestionLine(q)
  {
    var current := ChatHistory(messages).1;
    assert |PromptTail(current)| <= |p| && p[|p| - |PromptTail(current)|..] == PromptTail(current);
    CurrentQuestion(messages);
    TailEndsWithQuestion(p, current);
  }

  /** The current question is the newest message when the user sent it,
      and `None` otherwise. */
  lemma CurrentQuestion(messages: seq<Message>)
    ensures OptionText(ChatHistory(messages).1) ==
            if messages != [] && !messages[|messages| - 1].isAI then messages[|messages| - 1].content else "None"
  {
  }

  lemma TailEndsWithQuestion(p: string, current: Option<string>)
    requires |PromptTail(current)| <= |p| && p[|p| - |PromptTail(current)|..] == PromptTail(current)
    ensures var q := QuestionLine(OptionText(current));
            |q| <= |p| && p[|p| - |q|..] == q
  {
    SuffixOfSuffix(p, "\n        &&&\n        ", QuestionLine(OptionText(current)));
  }
}
