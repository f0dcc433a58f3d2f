# Camilo chat clone — a verified Dafny model of its core

Camilo is a chat bot that answers in the voice of a blog's author. This project models the parts of the
repository that decide what the bot sees and what the user gets back. It is written in Dafny and
its contracts are proved.

**The server.**
- The Python service (`ai_service.py`) fuses the retrieval results of the latest user messages into
  at most five weighted candidates, leaving out shadow-banned blog segments. It then formats the
  chat history, the blog references, the similar Q&A pairs and the similar conversations, and
  assembles them into one prompt.
- The older Node service (`aiService.js`) rewrites the model's `[N]` references into URLs, dates
  blog URLs and assembles its own prompt.
- `mcpService.js` keeps a registry of MCP servers. It validates the configuration, connects,
  records which server owns each tool, routes tool calls and closes.

**The client.**
- `App.tsx` renumbers the `[segmentId]` references of a reply into `[1]`, `[2]`, … with a links
  table, renders the references as links, plays a simulated conversation and handles a submitted
  question.
- `LoadingDots.tsx` is the Snake game of the loading indicator.

**The data pipeline.**
- `blogScraper.js` generates the monthly archive URLs.
- `blogRoutes.js` selects the posts published since the last stored one and cuts off text after
  the `#skipai` tag. The function it hands them to is never exported, so as written the route
  answers 500 whenever there is a new post.
- `splitArticlesToParagraphs.js` splits articles into paragraphs and overlapping segments, and
  numbers them.
- Four ETL scripts batch their inputs, build records and save the non-empty batches (the
  three embedding scripts stop at the first insert the database rejects):
  `embeddingsGenerator.js`, `conversationEmbeddingGenerator.js`, `questionEmbeddingGenerator.js`
  and `questionCreator.js`. `questionCreator.js` also stops once 20 questions are gathered,
  provided the language model's reply parses to an array. As written, `embeddingsGenerator.js`
  mixes an ES `export` with CommonJS `require`, so the file fails to load and its `main` never
  runs. The model is the body of that `main`.
- `analyzeParagraphs.js` ranks the longest paragraphs.
- `test.py` is a small comment scanner.

## Form of the model

Each source file is modelled in the style it is written in:
- Pure code (formatting, the sort, the splitters, the recursive segmenter) becomes functions.
- Every loop that updates variables becomes a `method` with a `while` loop. The method is proved
  equal to a specification function, and the properties are lemmas about that function.
- Objects whose fields the source updates become classes:
  - the MCP client manager (`McpService.McpClientManager`);
  - the Snake component's state (`SnakeGame.Snake`);
  - the chat window's state (`ClientChat.ChatWindow`).
- Shared pieces live in their own modules:
  - `Text`: trimming, joining, `indexOf` and decimal digits;
  - `Markers`: the `[digits]` tokenizer used by both the server and the client;
  - `Sentences`: the sentence regex;
  - `BlankLines`: the `\n\s*\n` split;
  - `DatePath`: the `/YYYY/MM/` search;
  - `StableSort`: the stable descending sort behind Python's `list.sort(reverse=True)` and
    JavaScript's `Array.prototype.sort`.
- Regular expressions become scanners written out for each pattern.
- Where the source has a bug listed under "## Findings", both the code as written and the
  corrected code are modelled. The chat window and the Snake class run the corrected code.
- Foreign services are function parameters: embeddings, vector search, the language model, the
  database, MCP servers, HTML conversion and `Math.random`.
- Similarity scores are exact `real`s.
- The current date is a parameter.

## Model

| member | source | states |
|---|---|---|
| ContextFusion.WeighSegments | server/services/ai_service.py:263-264 | each retrieved blog segment of one message is scaled by the weight and tagged as a segment, in order |
| ContextFusion.WeighQuestions | server/services/ai_service.py:265-266 | each Q&A row is scaled by the weight and tagged as a question, in order |
| ContextFusion.WeighConversations | server/services/ai_service.py:267-268 | each conversation row is scaled by the weight and tagged as a conversation, in order |
| ContextFusion.Weighted | server/services/ai_service.py:270-278 | one message contributes exactly as many candidates as it retrieved across the three kinds |
| ContextFusion.Fuse | server/services/ai_service.py:251-299 | the fused context as a function of the retrievals; what it returns is stated by `GetRelevantContext`, `AtMostFive`, `BannedNeverReturned` and `PartitionSizes` |
| ContextFusion.Top | server/services/ai_service.py:281-288 | the filtered candidates sorted and cut to five; stated by `TopAdmitted`, `TopAreHighest` and `TiesKeepMergeOrder` |
| ContextFusion.GetRelevantContext | server/services/ai_service.py:251-299 | the loop over the messages, the filter, the sort, the first five and the split by kind give exactly the fused context |
| ContextFusion.CombinedPrefix | server/services/ai_service.py:255-278 | the merged candidates of the first `i` messages are a prefix of the merged candidates of all messages |
| ContextFusion.CombinedSnoc | server/services/ai_service.py:278 | the merged list is extended by each message's own weighted candidates |
| ContextFusion.WeightedLayout | server/services/ai_service.py:270-278 | within one message's results the segments come first, then the questions, then the conversations, each scaled by the weight |
| ContextFusion.CombinedSlice | server/services/ai_service.py:278 | message `i`'s tagged results sit in the merged list right after those of messages `0..i-1` |
| ContextFusion.WeightingByPosition | server/services/ai_service.py:255-268 | every candidate of the message at list position `i` carries its similarity times `1 - 0.2 i`, at its own place in the merged list |
| ContextFusion.SegmentsOf | server/services/ai_service.py:292 | the segment list is no longer than the candidates it is taken from |
| ContextFusion.QuestionsOf | server/services/ai_service.py:291 | the question list is no longer than the candidates it is taken from |
| ContextFusion.ConversationsOf | server/services/ai_service.py:293 | the conversation list is no longer than the candidates it is taken from |
| ContextFusion.SegmentsOfMember | server/services/ai_service.py:292 | a returned segment was a candidate tagged as a segment |
| ContextFusion.TopAdmitted | server/services/ai_service.py:281-288 | every returned candidate survived the ban filter |
| ContextFusion.BannedNeverReturned | server/services/ai_service.py:281-284 | no blog segment with an id from 195 to 221 is returned |
| ContextFusion.OnlySegmentsFiltered | server/services/ai_service.py:281-284 | the ban filter never removes a Q&A pair or a conversation |
| ContextFusion.PartitionSizes | server/services/ai_service.py:290-293 | each kept candidate lands in exactly one of the three lists, and the sizes add up to the number kept |
| ContextFusion.AtMostFive | server/services/ai_service.py:286-298 | at most five candidates are returned in all, and fewer only when fewer survived the filter |
| ContextFusion.TopAreHighest | server/services/ai_service.py:286-288 | the kept candidates are in non-increasing order of similarity, come from the filtered candidates, and none left out scores higher than one kept |
| ContextFusion.TiesKeepMergeOrder | server/services/ai_service.py:287-288 | candidates with equal similarity keep the order in which they were merged (the sort is stable) |
| ContextFusion.NoDeduplication | server/services/ai_service.py:255-288 | a segment retrieved for two messages is returned twice, once at each weight |
| ContextFusion.TwiceRetrievedTop | server/services/ai_service.py:255-288 | the same segment retrieved twice occupies the first two of the five places |
| ContextFusion.TwiceRetrievedCombined | server/services/ai_service.py:255-278 | a segment retrieved for two messages is merged once at weight 1 and once at weight 0.8 |
| ContextFusion.TwoAdmittedSorted | server/services/ai_service.py:287-288 | two admitted candidates already in order stay in that order and are both kept |
| PromptAssembly.ChatHistory | server/services/ai_service.py:138-152 | the history text and the current question; stated by `FormatChatHistory`, `ChatHistoryOfNewQuestion` and `CurrentQuestion` |
| PromptAssembly.HistoryLines | server/services/ai_service.py:147-150 | one history line per message, in order, labelled `Shubh` or `User` |
| PromptAssembly.FormatChatHistory | server/services/ai_service.py:138-152 | a user message at the end is split off as the current question and the rest is listed; otherwise there is no current question and every message is listed; the caller's list is not changed |
| PromptAssembly.ChatHistoryOfNewQuestion | server/services/ai_service.py:138-152 | appending a user question to a history makes it the current question and leaves the history's lines as they were |
| PromptAssembly.ExtractDateFromUrl | server/services/ai_service.py:154-163 | no `/YYYY/MM/` fragment gives "Date unknown"; a fragment fails (Python raises) exactly when its year is 0 or its month is outside 1..12 |
| PromptAssembly.FourDigitYear | server/services/ai_service.py:162 | a year from 1000 to 9999 renders with four digits |
| PromptAssembly.DateOfMonthUrl | server/services/ai_service.py:154-163 | round trip: a URL built from year `y` and month `m` dates to that month's English name and `y` |
| PromptAssembly.SegmentDates | server/services/ai_service.py:165-169 | each segment's date is its URL's date, and the dating fails exactly when some segment's URL carries an invalid date |
| PromptAssembly.FormatContextSegments | server/services/ai_service.py:165-169 | formatting the blog references fails exactly when some URL carries an invalid date; otherwise the text is one block per segment, in order, labelled with the segment's id and its URL's date and followed by its content, joined by blank lines; no segments give the empty text |
| PromptAssembly.ReferencesLabelledById | server/services/ai_service.py:165-169 | when formatting succeeds, the `k`-th segment appears as `[Reference <its id> - <its URL's date>]:` followed by its content: labelled by database id, unlike the Node service's position numbers |
| PromptAssembly.FormatSimilarQuestions | server/services/ai_service.py:171-178 | the Q&A text is empty exactly when there are no pairs |
| PromptAssembly.QuestionsNumberedFromOne | server/services/ai_service.py:175-177 | the `k`-th pair (from 0) appears under the number `k + 1` |
| PromptAssembly.ConversationLines | server/services/ai_service.py:187-189 | one quoted line per message of a stored conversation |
| PromptAssembly.ConversationBlocks | server/services/ai_service.py:185-193 | one block per conversation |
| PromptAssembly.SimilarConversationsText | server/services/ai_service.py:180-195 | the conversations text is empty exactly when there are no conversations |
| PromptAssembly.FormatSimilarConversations | server/services/ai_service.py:180-195 | the two nested append loops produce exactly the conversations text |
| PromptAssembly.ConversationsNumberedFromOne | server/services/ai_service.py:191-193 | the `k`-th conversation (from 0) appears under the number `k + 1` |
| PromptAssembly.Section | server/services/ai_service.py:209-213 | an optional section is absent exactly when its text is empty |
| PromptAssembly.CombineIntoPrompt | server/services/ai_service.py:197-215 | the prompt starts with the system prompt and the date, and ends with the closing marker and the quoted current question |
| PromptAssembly.SectionsAreInsertions | server/services/ai_service.py:209-213 | each of the four optional sections is spliced into the prompt built without it, at its fixed place, and is exactly the header plus its text when non-empty |
| PromptAssembly.BlogSectionInserted | server/services/ai_service.py:209 | the blog section sits right after the date |
| PromptAssembly.QuestionsSectionInserted | server/services/ai_service.py:211 | the Q&A section sits right after the blog section |
| PromptAssembly.HistorySectionInserted | server/services/ai_service.py:212 | the history section sits right after the Q&A section |
| PromptAssembly.ConversationsSectionInserted | server/services/ai_service.py:213 | the conversations section sits right after the history section |
| PromptAssembly.SectionsInOrder | server/services/ai_service.py:209-213 | with every text present the sections occur in the order blog, Q&A, history, conversations, all after the date |
| PromptAssembly.OpeningOfSection | server/services/ai_service.py:209-213 | a present section opens with the `&&&` marker, its header and its text |
| PromptAssembly.AssemblePrompt | server/services/ai_service.py:217-237 | missing lists count as empty; the prompt fails exactly when some blog segment's URL carries an invalid date; a built prompt ends with the current question |
| PromptAssembly.PromptEndsWithQuestion | server/services/ai_service.py:225-237 | the prompt closes with the user's newest message quoted, or with "None" when the clone spoke last |
| PromptAssembly.CurrentQuestion | server/services/ai_service.py:142-143 | the current question is the newest message when the user sent it, and None otherwise |
| DatePath.FindFrom | server/services/ai_service.py:158 | the search returns the first position at or after `from` where `/DDDD/DD/` starts, or reports that there is none |
| DatePath.Search | server/services/ai_service.py:158 | a fragment is found exactly when one occurs, and its groups are four and two digits |
| DatePath.SearchFindsFragment | server/services/aiService.js:89 | a URL `<prefix>/YYYY/MM/<rest>` yields that year and month when no fragment starts inside the prefix |
| ServerAiService.MarkerUrl | server/services/aiService.js:72-74 | a marker names a segment exactly when its number is from 1 to the number of segments; `[0]` names none |
| ServerAiService.ReplaceMarker | server/services/aiService.js:71-85 | the replace callback gives the marker's replacement and adds the URL it produced to the seen set |
| ServerAiService.Replacement | server/services/aiService.js:72-84 | what one token becomes given the URLs already produced; stated by `FirstReferenceWritten`, `LaterReferenceDropped`, `OutOfRangeDropped` and `ReplaceMarker` |
| ServerAiService.Rewritten | server/services/aiService.js:68-86 | the text after every marker is replaced left to right; stated by `ReplaceReferencesWithUrls`, `RewrittenPrefix`, `EmittedOnce` and `NoMarkersUnchanged` |
| ServerAiService.ReplaceReferencesWithUrls | server/services/aiService.js:68-86 | the global replace rewrites the text token by token as the replacement rule says |
| ServerAiService.SeenUrlsSnoc | server/services/aiService.js:75-76 | the seen set grows by what each marker adds |
| ServerAiService.EmittedOnce | server/services/aiService.js:70-86 | each URL is written out at most once, and every URL some marker resolves to is written out |
| ServerAiService.NoMarkersUnchanged | server/services/aiService.js:71 | text without markers passes through unchanged |
| ServerAiService.SeenUrlsCharacterized | server/services/aiService.js:70-77 | a URL has been produced exactly when some earlier marker resolves to it |
| ServerAiService.RewrittenPrefix | server/services/aiService.js:71 | text outside markers is kept in place: what the first `j` tokens produce is a prefix of the output, followed by token `j`'s replacement |
| ServerAiService.RewrittenSnoc | server/services/aiService.js:71 | the output grows by one token's replacement at a time |
| ServerAiService.FirstReferenceWritten | server/services/aiService.js:74-77 | the first marker that resolves to a URL becomes `[url]` |
| ServerAiService.LaterReferenceDropped | server/services/aiService.js:78-79 | a later marker that resolves to an already produced URL becomes empty |
| ServerAiService.OutOfRangeDropped | server/services/aiService.js:72-84 | a marker out of range, `[0]` included, becomes empty |
| ServerAiService.JsYearMonth | server/services/aiService.js:92 | `new Date(year, month - 1)` lands on a month from 1 to 12; where it lands is stated by `JsYearMonthCarry` |
| ServerAiService.ExtractDateFromUrl | server/services/aiService.js:88-96 | no fragment gives "Date unknown", the Node service never fails, and a found fragment is dated by the year and month numbers it spells (what that date is: `LocaleDateRollsOver`) |
| ServerAiService.LocaleDate | server/services/aiService.js:92-93 | the text of `new Date(year, month - 1)` as a month name and a year; stated by `LocaleDateRollsOver` |
| ServerAiService.LocaleDateRollsOver | server/services/aiService.js:92-93 | for every year and month the fragment can spell: years 0..99 read as 1900..1999, month 0 gives December of the year before, and a month from 13 on gives month (m-1) mod 12 + 1 of the year plus (m-1) div 12 |
| ServerAiService.JsYearMonthCarry | server/services/aiService.js:92 | `new Date(year, month - 1)` lands on December of the year before for month 0, and on month (m-1) mod 12 + 1 of the year plus (m-1) div 12 otherwise |
| ServerAiService.MonthThirteenRollsOver | server/services/aiService.js:92-93 | `/2020/13/` dates to January 2021 |
| ServerAiService.MonthThirteenFound | server/services/aiService.js:89 | `/2020/13/` matches the fragment with year 2020 and month 13 |
| ServerAiService.ServicesAgreeOnValidDates | server/services/aiService.js:88-96 | both services date a URL alike when it holds a real month of a year from 100 on |
| ServerAiService.JsYearMonthOfValidDate | server/services/aiService.js:92 | a real month of a year from 100 on is taken as it is |
| ServerAiService.ReferenceBlocks | server/services/aiService.js:99-103 | one reference block per segment |
| ServerAiService.FormatContextSegments | server/services/aiService.js:98-105 | the context is empty exactly when there are no segments |
| ServerAiService.ReferencesNumberedByPosition | server/services/aiService.js:100-102 | the `k`-th segment (from 0) is referenced as number `k + 1` |
| ServerAiService.ReferencesIgnoreIds | server/services/aiService.js:98-105 | the numbering does not depend on the segments' database ids |
| ServerAiService.FormatUserPrompt | server/services/aiService.js:107-112 | the user prompt; its layout is stated by `UserPromptOrder` |
| ServerAiService.UserPromptOrder | server/services/aiService.js:107-112 | the prompt holds the system prompt, then the date, then the context, then the user's question, which ends it |
| Markers.DigitRunEnd | client/src/App.tsx:324 | the digit run starting at `i` ends at the first non-digit |
| Markers.MarkerLength | client/src/App.tsx:324 | a marker spans its brackets and at least one digit |
| Markers.MarkerDigits | client/src/App.tsx:324 | the captured group is a non-empty digit string, and the marker is that string in brackets |
| Markers.Tokenize | client/src/App.tsx:324 | reading a text into plain characters and markers yields only well-formed markers |
| Markers.TokenizeRoundTrip | client/src/App.tsx:324 | the tokens render back to the text |
| Markers.MarkerTokenizes | server/services/aiService.js:71 | a rendered marker reads back as the same marker, whatever follows it |
| Markers.MarkerIds | client/src/App.tsx:324 | there are no more marker ids than tokens |
| ClientLinks.KeyIndex | client/src/App.tsx:328 | the position of the first numbered URL with a given key, or none when no such URL was numbered |
| ClientLinks.NumberIn | client/src/App.tsx:328-337 | a URL's number is from 1 to one more than the URLs numbered so far |
| ClientLinks.Order | client/src/App.tsx:324-340 | the URLs in the order they were first numbered; stated by `OrderDistinct`, `OrderPrefix`, `OrderKeysSeen`, `FreshUrlGetsNextNumber` and `KeyStaysNumbered` |
| ClientLinks.OrderDistinct | client/src/App.tsx:328-337 | no URL key is numbered twice |
| ClientLinks.LinksOf | client/src/App.tsx:316-337 | the links table has exactly the keys `1..count`, each mapped to the URL numbered with it |
| ClientLinks.TracksNew | client/src/App.tsx:334-337 | numbering a new URL extends the order and keeps every table in step with it |
| ClientLinks.TracksOld | client/src/App.tsx:328-330 | a URL already numbered keeps its number, and the tables stay in step |
| ClientLinks.ReadStep | client/src/App.tsx:324-340 | reading one more token numbers its URL when it is a marker, and extends the text by its rewriting |
| ClientLinks.NumberMarker | client/src/App.tsx:324-340 | the replace callback returns the number of the marker's URL, taken from the tables or assigned next, and keeps the tables in step |
| ClientLinks.ProcessResponseText | client/src/App.tsx:312-343 | the processed text and the links table are those of numbering the distinct URLs in order of first appearance |
| ClientLinks.KeyIndexExtend | client/src/App.tsx:328-337 | numbering more URLs never moves a numbered key |
| ClientLinks.OrderPrefix | client/src/App.tsx:324-340 | the URLs numbered while reading a prefix are the first ones numbered while reading the whole text |
| ClientLinks.NumberedAfterMarker | client/src/App.tsx:328-339 | after a marker is read its URL holds the number it was rewritten to |
| ClientLinks.MarkerLinksToItsUrl | client/src/App.tsx:328-339 | every rewritten marker points, through the links table, at its own segment's URL |
| ClientLinks.SameUrlSameNumber | client/src/App.tsx:328-331 | a URL keeps the number it was first given |
| ClientLinks.KeyStaysNumbered | client/src/App.tsx:328-337 | a key numbered while reading a prefix keeps its position |
| ClientLinks.SameNumberIffSameUrl | client/src/App.tsx:328-337 | two markers get the same number exactly when their segments have the same URL |
| ClientLinks.FreshUrlGetsNextNumber | client/src/App.tsx:334-337 | a marker whose URL has not been seen gets the next number |
| ClientLinks.OrderKeysSeen | client/src/App.tsx:334-336 | every numbered URL is the URL of some marker read |
| ClientLinks.Relabelled | client/src/App.tsx:324-340 | relabelling keeps the number of tokens |
| ClientLinks.Processed | client/src/App.tsx:324-340 | the text with each marker renumbered; stated by `ProcessResponseText`, `ProcessedIsRelabelled` and `ProcessedText` |
| ClientLinks.ProcessedIsRelabelled | client/src/App.tsx:324-340 | the processed text is the text with each marker's digits replaced by its number, and plain characters are kept in place |
| ClientLinks.ProcessedText | client/src/App.tsx:324-340 | the processed text is the rendering of the relabelled tokens |
| ClientLinks.RelabelledAt | client/src/App.tsx:324-340 | token `j` is relabelled to its number when it is a marker and kept otherwise |
| ClientLinks.NoMarkersUnchanged | client/src/App.tsx:312-343 | a reply without markers comes back unchanged, with an empty links table |
| ClientLinks.Parts | client/src/App.tsx:355 | splitting on the capturing marker pattern gives two parts per marker plus one |
| ClientLinks.PartsShape | client/src/App.tsx:355 | the parts concatenate back to the text, and the odd parts are the markers in order |
| ClientLinks.PartsConcat | client/src/App.tsx:355 | the parts concatenate back to the text |
| ClientLinks.PartsMarker | client/src/App.tsx:355 | the odd part `2m + 1` is the `m`-th marker in brackets |
| ClientLinks.RenderMessageWithLinks | client/src/App.tsx:345-375 | without a links table the text is shown as it is; with one there is one piece per part |
| ClientLinks.RenderParts | client/src/App.tsx:357-374 | one rendered piece per part |
| ClientLinks.RenderedLinks | client/src/App.tsx:357-371 | each marker part becomes a link labelled with its number and pointing at that number's entry in the table |
| ClientLinks.RenderedMarker | client/src/App.tsx:357-371 | the part of the `m`-th marker renders as the link of its parsed number |
| ClientLinks.RenderedPart | client/src/App.tsx:358-361 | an odd part renders as the link of the number between its brackets |
| ClientLinks.ParseIntOfDigits | client/src/App.tsx:360 | `parseInt` of a digit string is its decimal value |
| ClientLinks.MarkerIdsWellFormed | client/src/App.tsx:324 | marker ids of a tokenized text are non-empty digit strings |
| ClientLinks.RenderedTextRoundTrip | client/src/App.tsx:355 | the parts of a rendered message spell out the message |
| ClientChat.SubmitOutcomeAsWritten | client/src/App.tsx:459-474 | as written, an answered submit stores the raw reply without links, and an empty or failed reply becomes the error message |
| ClientChat.SubmitOutcome | client/src/App.tsx:459-474 | the intended AI message carries a links table exactly when the server answered, and the error message otherwise |
| ClientChat.ShadowedReplyKeepsSegmentIds | client/src/App.tsx:459-474 | for the reply `[5]` the written code stores `[5]` with no links table, while the intended code stores `[1]` linked to the segment's URL |
| ClientChat.SubmittedReplyLinks | client/src/App.tsx:461-476 | in the intended reply every marker links to its own segment's URL |
| ClientChat.SubmittedPlainReplyUnchanged | client/src/App.tsx:461-476 | an intended reply without markers is stored as it came, with an empty table |
| ClientChat.Simulate | client/src/App.tsx:382-431 | the simulation appends nothing once more than 20 messages exist, never grows the conversation past 21, and attaches no links |
| ClientChat.SimulationRunsToLimit | client/src/App.tsx:383-418 | with a server that always answers, the conversation reaches 21 messages and the speakers alternate, the user speaking when the length is even |
| ClientChat.SimulationRequests | client/src/App.tsx:390-427 | each appended message is the server's answer to the history so far, asked for the side whose turn it is, or the error message |
| ClientChat.ChatWindow.constructor | client/src/App.tsx:278-280 | the window starts with no messages, an empty input and no loading |
| ClientChat.ChatWindow.SetInput | client/src/App.tsx:548 | typing replaces the input and changes nothing else |
| ClientChat.ChatWindow.HandleSubmit | client/src/App.tsx:433-490 | a blank input changes nothing; otherwise the user's message and the corrected outcome `SubmitOutcome` are appended (see "## Findings" for the code as written), the input is cleared and loading ends |
| ClientChat.ChatWindow.StartSimulation | client/src/App.tsx:377-380 | the simulated messages are appended to the window |
| Sentences.RunLen | server/scripts/splitArticlesToParagraphs.js:8 | the length of the leading run of one character class |
| Sentences.MatchEnd | server/scripts/splitArticlesToParagraphs.js:8 | a match ends within the text |
| Sentences.Scan | server/scripts/splitArticlesToParagraphs.js:8 | the global matches of the sentence pattern, in order; stated by `ScanShapes`, `NoMatchIff`, `SplitJoinedSentences` and `LeadingTerminatorsSkipped` |
| Sentences.SplitIntoSentences | server/scripts/splitArticlesToParagraphs.js:7-9 | the text itself when nothing matches, otherwise sentence-shaped pieces |
| Sentences.MatchShape | server/scripts/splitArticlesToParagraphs.js:8 | the match at the front has the sentence shape |
| Sentences.ScanShapes | server/scripts/splitArticlesToParagraphs.js:8 | every match has the sentence shape, and the matches are no longer than the text |
| Sentences.NoMatchIff | server/scripts/splitArticlesToParagraphs.js:8 | nothing matches exactly when no run of text ends in `.`, `!` or `?` |
| Sentences.SplitJoinedSentences | server/scripts/splitArticlesToParagraphs.js:8 | joined sentences split back into exactly those sentences, and the text after the last terminator is dropped |
| Sentences.LeadingTerminatorsSkipped | server/scripts/splitArticlesToParagraphs.js:8 | terminators at the front of the text are skipped |
| ArticleSplit.CombineAll | server/scripts/splitArticlesToParagraphs.js:15-29 | the loop state after the given paragraphs; stated by `CombineAllBounds` and `CombineAllJoin` |
| ArticleSplit.Combined | server/scripts/splitArticlesToParagraphs.js:11-37 | the combined paragraphs with the last one flushed; stated by `CombineShortParagraphs`, `CombinedBounds` and `CombinedJoin` |
| ArticleSplit.CombineShortParagraphs | server/scripts/splitArticlesToParagraphs.js:11-37 | the loop gives exactly the combined paragraphs |
| ArticleSplit.CombinedBounds | server/scripts/splitArticlesToParagraphs.js:18-34 | every output but the last is at least 100 characters long, none is empty, and there are no more outputs than inputs |
| ArticleSplit.CombineAllBounds | server/scripts/splitArticlesToParagraphs.js:18-28 | emitted paragraphs are at least 100 characters long, and no more paragraphs are emitted or in progress than were read |
| ArticleSplit.CombineAllJoin | server/scripts/splitArticlesToParagraphs.js:15-29 | the emitted paragraphs plus the one in progress join to the trimmed inputs |
| ArticleSplit.CombinedJoin | server/scripts/splitArticlesToParagraphs.js:11-37 | with every input non-blank, the outputs joined by blank lines equal the trimmed inputs joined by blank lines |
| ArticleSplit.Renumber | server/scripts/splitArticlesToParagraphs.js:77-82 | renumbering keeps every content and sets every number |
| ArticleSplit.WindowShorter | server/scripts/splitArticlesToParagraphs.js:61-89 | a window that leaves out a sentence is shorter than the paragraph |
| ArticleSplit.FirstHalf | server/scripts/splitArticlesToParagraphs.js:61 | the first half is shorter than the paragraph |
| ArticleSplit.SecondHalf | server/scripts/splitArticlesToParagraphs.js:64 | the second half is shorter than the paragraph |
| ArticleSplit.FewFirstHalf | server/scripts/splitArticlesToParagraphs.js:88 | the first of two halves is shorter than the paragraph |
| ArticleSplit.FewSecondHalf | server/scripts/splitArticlesToParagraphs.js:89 | the second of two halves is shorter than the paragraph |
| ArticleSplit.CreateOverlappingSegments | server/scripts/splitArticlesToParagraphs.js:39-96 | `createOverlappingSegments`; stated by `AtLeastOneSegment`, `WholeParagraphIff`, `FewSentencesHalves`, `ManySentencesSegments`, `ContentsIndependentOfDepth`, `NumbersFromDepth` and `SegmentsShorter` |
| ArticleSplit.AtLeastOneSegment | server/scripts/splitArticlesToParagraphs.js:39-96 | every call returns at least one segment |
| ArticleSplit.WholeParagraphIff | server/scripts/splitArticlesToParagraphs.js:40-54 | a paragraph of at most 800 characters, or with at most one sentence, is one segment numbered `depth`, and only such a paragraph is |
| ArticleSplit.FewSentencesHalves | server/scripts/splitArticlesToParagraphs.js:86-93 | with 2 to 4 sentences the result is the first `ceil(n/2)` sentences numbered `depth` and the sentences from `floor(n/2)` on numbered `depth + 1`, sharing the middle one exactly when `n` is odd |
| ArticleSplit.ManySentencesHalves | server/scripts/splitArticlesToParagraphs.js:56-64 | with more than 4 sentences the halves are sentences `[0, mid+1)` and `[mid-1, n)`, sharing sentences `mid-1` and `mid` |
| ArticleSplit.ManySentencesSegments | server/scripts/splitArticlesToParagraphs.js:66-85 | the result is the first half's segments then the second half's, every second-half segment numbered `depth + 1`, a long second half cut by a call without a depth |
| ArticleSplit.ContentsIndependentOfDepth | server/scripts/splitArticlesToParagraphs.js:39-96 | the contents of the segments do not depend on the depth |
| ArticleSplit.NumbersFromDepth | server/scripts/splitArticlesToParagraphs.js:39-96 | a call with a number numbers every segment at or above it; a call without one numbers none |
| ArticleSplit.SegmentsShorter | server/scripts/splitArticlesToParagraphs.js:39-96 | no segment is longer than the paragraph, and once a paragraph is split every segment is shorter than it |
| ArticleSplit.NonBlank | server/scripts/splitArticlesToParagraphs.js:108 | the filter keeps only pieces that are not blank |
| ArticleSplit.ParagraphTexts | server/scripts/splitArticlesToParagraphs.js:113-136 | every combined paragraph yields at least one text |
| ArticleSplit.NumberRecords | server/scripts/splitArticlesToParagraphs.js:121-134 | the texts become records numbered consecutively from the first number, with the article's URL and title |
| ArticleSplit.NumberRecordsExtend | server/scripts/splitArticlesToParagraphs.js:111-136 | numbering continues across the paragraphs of an article |
| ArticleSplit.EmitParagraph | server/scripts/splitArticlesToParagraphs.js:114-136 | one paragraph's records are its texts numbered from the counter, which advances by their number |
| ArticleSplit.EmitSegments | server/scripts/splitArticlesToParagraphs.js:120-127 | each segment becomes a record numbered by the counter, ignoring the segment's own number |
| ArticleSplit.EmitParagraphs | server/scripts/splitArticlesToParagraphs.js:111-137 | an article's records are all its texts numbered 1, 2, 3, … |
| ArticleSplit.ProcessArticle | server/scripts/splitArticlesToParagraphs.js:106-137 | one article gives its records |
| ArticleSplit.ProcessArticles | server/scripts/splitArticlesToParagraphs.js:104-138 | the records of every article, article by article |
| ArticleSplit.AllRecordsAppend | server/scripts/splitArticlesToParagraphs.js:106-138 | each article is processed on its own: the records of a joined list are the joined records |
| BlankLines.LastIndex | server/scripts/splitArticlesToParagraphs.js:108 | the last occurrence of a character, or none |
| BlankLines.SeparatorAt | server/scripts/splitArticlesToParagraphs.js:108 | a separator found at the front is at least two characters long |
| BlankLines.SplitBlankLines | server/scripts/analyzeParagraphs.js:17 | the split always gives at least one piece |
| BlankLines.SeparatorShape | server/scripts/analyzeParagraphs.js:17 | what is matched is a newline, whitespace and a newline |
| BlankLines.SplitShape | server/scripts/analyzeParagraphs.js:17 | the pieces and the matched separators interleave back to the text |
| BlankLines.SplitRoundTrip | server/scripts/analyzeParagraphs.js:17 | the split round-trips: the pieces joined by the separators the pattern matched give the text back |
| BlankLines.NoNewlineOnePiece | server/scripts/analyzeParagraphs.js:17 | text without a newline is one paragraph |
| BlogScraper.MonthOfIndex | server/scrapers/blogScraper.js:58-62 | every month index names a real month |
| BlogScraper.Months | server/scrapers/blogScraper.js:51-63 | the number of months is `(endYear - startYear) * 12 + endMonth - startMonth + 1` when the start is not after the end, and 0 otherwise |
| BlogScraper.MonthUrls | server/scrapers/blogScraper.js:55-56 | one URL per month |
| BlogScraper.NextIsFollowingMonth | server/scrapers/blogScraper.js:58-62 | one step of the loop moves to the next month, wrapping December into January of the next year |
| BlogScraper.MonthsChronological | server/scrapers/blogScraper.js:44-66 | the months run from the start month to the end month inclusive, each the month after the one before |
| BlogScraper.NextIndex | server/scrapers/blogScraper.js:58-62 | the loop's step moves one month index on |
| BlogScraper.NotPastIff | server/scrapers/blogScraper.js:51-54 | the loop condition compares month indices |
| BlogScraper.GenerateMonthUrls | server/scrapers/blogScraper.js:44-66 | the loop produces exactly the archive URLs, `BASE_URL/YYYY/MM/` with a zero-padded month |
| BlogScraper.ShippedConfigUrls | server/scrapers/constants.js:3-11 | the shipped configuration visits 55 months, from `/2020/03/` to `/2024/09/` |
| BlogScraper.ShippedUrlsDateToTheirMonth | server/scrapers/blogScraper.js:55-56 | every archive URL of the shipped configuration dates to its own month in the Python service |
| BlogRoutes.FilterSkipAiContent | server/routes/blogRoutes.js:17-22 | the filtered text is never longer than the text |
| BlogRoutes.SkipAiCut | server/routes/blogRoutes.js:17-22 | the result is the trimmed text before the first case-insensitive `#skipai`, or the text unchanged when there is none |
| BlogRoutes.NoTagAfterFilter | server/routes/blogRoutes.js:17-22 | the filtered text holds no tag |
| BlogRoutes.FilterIdempotent | server/routes/blogRoutes.js:17-22 | filtering twice is filtering once |
| BlogRoutes.StripScheme | server/routes/blogRoutes.js:87-88 | at most one leading `http://` or `https://` is removed |
| BlogRoutes.StripSchemeRoundTrip | server/routes/blogRoutes.js:87-89 | the same address over `http` and over `https` compares equal |
| BlogRoutes.ToBlogs | server/routes/blogRoutes.js:101-105 | each post becomes a blog with its converted content, in order |
| BlogRoutes.FirstStored | server/routes/blogRoutes.js:86-91 | the position of the first stored post, or the length of the list |
| BlogRoutes.SelectNewBlogs | server/routes/blogRoutes.js:84-106 | the loop collects exactly the selected posts, converted |
| BlogRoutes.SelectionStopsAtStored | server/routes/blogRoutes.js:84-106 | with a stored URL the selection is the prefix before the first stored post; without one it is every post |
| BlogRoutes.Reverse | server/routes/blogRoutes.js:110 | reversal keeps the length and mirrors the positions |
| BlogRoutes.FilterBlogs | server/routes/blogRoutes.js:112-115 | each blog's content is skipai-filtered, and nothing else changes |
| BlogRoutes.UpdateBlogs | server/routes/blogRoutes.js:79-128 | the route hands the reversed, filtered selection to `processAndSaveArticles`; as that import is undefined the call throws, so any selected post makes the reply a 500 "Failed to pull blogs", and success is only ever reported with a count of 0 |
| BlogRoutes.SavedInReverse | server/routes/blogRoutes.js:108-118 | nothing is saved when no post is selected; otherwise the selected posts are saved newest first, each with its content converted and filtered |
| McpService.ConfigErrors | server/services/mcpService.js:22-47 | the errors `validateConfig` logs; stated by `ValidateConfig`, `ValidIffNoErrors` and `EveryProblemLogged` |
| McpService.ValidateConfig | server/services/mcpService.js:22-47 | the configuration is accepted exactly when servers are configured and every server has a command and an `args` array, and every problem of every server is logged |
| McpService.ServerErrorsEmptyIff | server/services/mcpService.js:34-46 | nothing is logged about the servers exactly when every server is valid |
| McpService.ValidIffNoErrors | server/services/mcpService.js:22-47 | the configuration is accepted exactly when nothing is logged |
| McpService.EveryProblemLogged | server/services/mcpService.js:34-46 | there is no early exit: each server's problems are logged whatever the servers before it look like |
| McpService.ServerNames | server/services/mcpService.js:79 | one name per configured server |
| McpService.NameSet | server/services/mcpService.js:79-97 | the client keys are exactly the server names |
| McpService.CollectToolsEmptyIff | server/services/mcpService.js:99-120 | no tool is collected exactly when no server provides one |
| McpService.ConnectStep | server/services/mcpService.js:99-108 | connecting to one more server extends the tools list and the map by that server's tools |
| McpService.AssignAllMaps | server/services/mcpService.js:135-138 | a server's tools are mapped to that server, and other entries are kept |
| McpService.LastServerWins | server/services/mcpService.js:99-138 | the last server that lists a tool name owns it |
| McpService.UnlistedKept | server/services/mcpService.js:135-138 | a name no server lists keeps whatever entry it had |
| McpService.CollectedToolsMapped | server/services/mcpService.js:135-147 | every collected tool's name is in the tool map |
| McpService.McpClientManager.constructor | server/services/mcpService.js:11-18 | the manager starts with no clients, no tools, an empty tool map and not connected |
| McpService.McpClientManager.ConnectClient | server/services/mcpService.js:128-157 | a listing server's tools are appended and mapped to it; a failure leaves both untouched |
| McpService.McpClientManager.CreateClients | server/services/mcpService.js:79-97 | one client per configured server |
| McpService.McpClientManager.Connect | server/services/mcpService.js:72-126 | the manager holds the configured clients, the tools of every server in order and their map, and is connected exactly when some tool was found |
| McpService.McpClientManager.Init | server/services/mcpService.js:49-70 | already connected: true with nothing changed; an invalid configuration: false with nothing changed; otherwise the connection's result |
| McpService.McpClientManager.CallTool | server/services/mcpService.js:159-182 | not connected and unknown tools fail with the source's messages; otherwise the call goes to exactly the owning server |
| McpService.McpClientManager.Close | server/services/mcpService.js:184-199 | the manager ends disconnected, whatever the clients' close errors, and keeps its tools, tool map and clients |
| SnakeGame.DefaultPositions | client/src/components/LoadingDots.tsx:157-164 | one position per dot |
| SnakeGame.DefaultRowLayout | client/src/components/LoadingDots.tsx:157-164 | the dots lie on the top line, the tail at the origin and the head rightmost, one grid step apart |
| SnakeGame.Snap | client/src/components/LoadingDots.tsx:86-90 | the snapped value is a multiple of the grid size |
| SnakeGame.SnapIsNearest | client/src/components/LoadingDots.tsx:86-90 | the snapped value is the nearest grid line, a tie going to the upper one |
| SnakeGame.RandomTarget | client/src/components/LoadingDots.tsx:78-91 | as written, the target is on the grid |
| SnakeGame.TargetCanLeaveScreen | client/src/components/LoadingDots.tsx:86-90 | as written, a draw of 999 on a screen 1000 wide puts the target off the screen |
| SnakeGame.SnapWithin | client/src/components/LoadingDots.tsx:86-90 | the corrected coordinate is on the grid and its dot fits on the screen |
| SnakeGame.Target | client/src/components/LoadingDots.tsx:78-91 | the target the game uses is on the grid and, on a screen at least one dot wide and high, wholly on the screen |
| SnakeGame.TargetAgreesWhenOnScreen | client/src/components/LoadingDots.tsx:86-90 | the correction changes nothing when the written target fits |
| SnakeGame.Collides | client/src/components/LoadingDots.tsx:94-107 | `checkCollision`; stated by `CollisionSymmetric` |
| SnakeGame.Turn | client/src/components/LoadingDots.tsx:255-303 | the steering `switch`; stated by `TurnNeverReverses` |
| SnakeGame.CollisionSymmetric | client/src/components/LoadingDots.tsx:94-107 | a hit is a hit from either side, and a head on the target hits it |
| SnakeGame.TurnNeverReverses | client/src/components/LoadingDots.tsx:255-303 | a key never turns the snake back on itself, arrow keys turn as named, and other keys change nothing |
| SnakeGame.Stepped | client/src/components/LoadingDots.tsx:221-233 | one step without growth; stated by `StepShapes` and `MoveBody` |
| SnakeGame.StepShapes | client/src/components/LoadingDots.tsx:221-233 | a step keeps the length, each body dot takes the place of the dot in front of it, and the old tail is the one position dropped |
| SnakeGame.MoveBody | client/src/components/LoadingDots.tsx:221-233 | the copy and the backward loop give the new head followed by every old position but the tail |
| SnakeGame.Snake.constructor | client/src/components/LoadingDots.tsx:138-166 | the game starts with the default row, moving left, not started and without a target |
| SnakeGame.Snake.Resize | client/src/components/LoadingDots.tsx:198-208 | a resize records the new size and changes nothing else |
| SnakeGame.Snake.KeyDown | client/src/components/LoadingDots.tsx:255-303 | the first arrow key starts the game from the laid-out dots and draws the corrected target `Target` (see "## Findings" for the code as written); arrow keys turn; other keys change nothing |
| SnakeGame.Snake.UpdatePositions | client/src/components/LoadingDots.tsx:211-245 | nothing moves before the game starts; afterwards the snake steps, and on a hit it keeps its old tail, counts one more dot and draws a new target with the corrected `Target` (see "## Findings") |
| EtlBatches.Batches | server/scripts/conversationEmbeddingGenerator.js:13-19 | the slices of `processInBatches`; stated by `BatchesPartition`, `BatchesOfOne` and `ProcessInBatches` |
| EtlBatches.BatchesPartition | server/scripts/embeddingsGenerator.js:31-37 | the batches concatenate to the input, there are none for no input, each holds 1 to `size` items and all but the last are full |
| EtlBatches.BatchesOfOne | server/scripts/questionCreator.js:56-62 | with batches of one, the `k`-th batch is the `k`-th item alone |
| EtlBatches.ProcessInBatches | server/scripts/conversationEmbeddingGenerator.js:13-19 | the loop produces exactly the batches |
| EtlBatches.Successes | server/scripts/embeddingsGenerator.js:70-91 | there are no more records than inputs |
| EtlBatches.SavedIsEverySuccess | server/scripts/embeddingsGenerator.js:66-99 | every record built is handed to the store exactly once, in input order, and no batch handed over is empty |
| EtlBatches.SavedBatchesBounded | server/scripts/embeddingsGenerator.js:66-99 | a batch handed to the store holds no more records than its input batch had items |
| EtlBatches.FirstRejected | server/scripts/embeddingsGenerator.js:39-50 | the position of the first insert the store rejects: every earlier batch is accepted |
| EtlBatches.StoredIsPrefix | server/scripts/embeddingsGenerator.js:66-106 | the records stored are the first records built, in input order, and all of them when no insert is rejected |
| EtlBatches.RunBatches | server/scripts/embeddingsGenerator.js:66-106 | the loop hands over one batch per input batch that produced a record; the run completes iff the store accepts every insert, and otherwise stops at the first rejected insert with only the earlier batches stored; a completed run counts every record built, an aborted one the records up to the rejected batch |
| EtlBatches.RejectedBatch | server/scripts/embeddingsGenerator.js:94-106 | the batch whose insert throws is the first rejected one, and the batches stored are exactly those before it |
| EtlBatches.ExtractUserMessages | server/scripts/conversationEmbeddingGenerator.js:35-40 | the user's messages joined by spaces; stated by `UserMessagesExtracted` |
| EtlBatches.UserMessagesExtracted | server/scripts/conversationEmbeddingGenerator.js:35-40 | the embedded text holds every message the user sent, and is empty when the assistant sent them all |
| EtlBatches.UserContentsAppend | server/scripts/conversationEmbeddingGenerator.js:35-40 | the user's messages are taken in order |
| EtlBatches.UserContentsOfOne | server/scripts/conversationEmbeddingGenerator.js:36-38 | a message is kept exactly when it is not the assistant's |
| EtlBatches.ConversationEmbeddingMain | server/scripts/conversationEmbeddingGenerator.js:42-94 | the conversations are batched by 100; the run completes iff every insert is accepted; the stored records are a prefix of those of the conversations whose embedding succeeded, and all of them with their count when it completes |
| EtlBatches.BuildQa | server/scripts/questionEmbeddingGenerator.js:52-61 | the Q&A record of one pair, if its embedding succeeds; stated by `QaRecordDefaults` |
| EtlBatches.QaRecordDefaults | server/scripts/questionEmbeddingGenerator.js:52-61 | a Q&A record is built exactly when the embedding succeeds; its answer is null when the answer is missing or empty, and its segments are empty when the ids are missing |
| EtlBatches.QuestionEmbeddingMain | server/scripts/questionEmbeddingGenerator.js:35-88 | the pairs are batched by 100; the run completes iff every insert is accepted; the stored records are a prefix of those of the pairs whose embedding succeeded, and all of them with their count when it completes |
| EtlBatches.SegmentEmbeddingMain | server/scripts/embeddingsGenerator.js:53-106 | the body of `main`, as if the file loaded (see "## Left out"): the segments are batched by 100; the run completes iff every insert is accepted; the stored records are a prefix of those of the segments whose embedding succeeded, and all of them with their count when it completes |
| EtlBatches.SegmentRecordsCopySegments | server/scripts/embeddingsGenerator.js:74-80 | each saved record copies the url, title, content and segment number of a segment whose embedding succeeded |
| QuestionCreator.TotalQuestionsAppend | server/scripts/questionCreator.js:94 | question counts add up across records |
| QuestionCreator.AttemptAllAdds | server/scripts/questionCreator.js:83-104 | a batch adds the records of its successful articles, their questions and their number; a failed article changes nothing |
| QuestionCreator.StopStays | server/scripts/questionCreator.js:80-82 | once 20 questions are gathered the remaining batches are not taken |
| QuestionCreator.Run | server/scripts/questionCreator.js:78-105 | the outer loop over the batches; stated by `RunCounts`, `RunIsPrefix`, `StopStays`, `OvershootBounded` and `QuestionCreatorMain` |
| QuestionCreator.RunCounts | server/scripts/questionCreator.js:78-105 | the counters agree with the records, for a generator whose reply is an array of strings (see "## Left out") |
| QuestionCreator.RunIsPrefix | server/scripts/questionCreator.js:78-105 | the records are those of the successful articles of a prefix of the batches, and a batch is left out only once the limit was reached |
| QuestionCreator.OvershootBounded | server/scripts/questionCreator.js:80-94 | with batches of one the count stays below 20 plus the most questions one article yields |
| QuestionCreator.OvershootHappens | server/scripts/questionCreator.js:80-94 | the count can end above 20: one article yielding 25 questions gives 25 |
| QuestionCreator.QuestionCreatorMain | server/scripts/questionCreator.js:56-105 | batches of one, the outer loop with its early stop and the inner loop give exactly the run |
| QuestionCreator.MainOvershootBounded | server/scripts/questionCreator.js:78-105 | the overshoot bound in terms of the articles |
| ParagraphAnalysis.Collected | server/scripts/analyzeParagraphs.js:19-31 | the records of one article's pieces; stated by `CollectedIndices`, `CollectedEntries`, `CollectedComplete` and `CollectArticle` |
| ParagraphAnalysis.AllParagraphs | server/scripts/analyzeParagraphs.js:15-32 | the records of all articles in order; stated by `CollectParagraphs` and `AnalyzeParagraphs` |
| ParagraphAnalysis.CollectedIndices | server/scripts/analyzeParagraphs.js:19-28 | an article's records are in increasing order of their position in the raw split |
| ParagraphAnalysis.CollectedEntries | server/scripts/analyzeParagraphs.js:21-30 | each record holds the trimmed, non-empty text of its piece, its length, and its article's title and URL |
| ParagraphAnalysis.CollectedComplete | server/scripts/analyzeParagraphs.js:19-31 | every non-blank piece has a record at its raw position, so blank pieces still take a position |
| ParagraphAnalysis.CollectArticle | server/scripts/analyzeParagraphs.js:19-31 | the inner loop appends exactly the article's records |
| ParagraphAnalysis.CollectParagraphs | server/scripts/analyzeParagraphs.js:15-32 | the outer loop gives the records of every article, in order |
| ParagraphAnalysis.AnalyzeParagraphs | server/scripts/analyzeParagraphs.js:12-37 | the report lists the records sorted by length, longest first, cut to 50 |
| ParagraphAnalysis.TopParagraphs | server/scripts/analyzeParagraphs.js:35-37 | at most 50 records, in non-increasing length, drawn from the collected ones, with none left out longer than one kept |
| ParagraphAnalysis.TopParagraphsStable | server/scripts/analyzeParagraphs.js:35-37 | records of equal length keep their collection order, and the cut at 50 keeps the first of a tied length and drops the later ones |
| CommentScanner.AfterLast | test.py:21-22 | the text after the last `"`, or the whole line without one |
| CommentScanner.UpTo | test.py:24 | the text up to the first `#` |
| CommentScanner.SecondField | test.py:24 | the text between the first `#` and the next one, or the end of the line |
| CommentScanner.Step | test.py:12-27 | one iteration: toggle, then examine; stated by `StepReports`, `OpenStep`, `CloseStep` and `HashLine` |
| CommentScanner.Run | test.py:9-27 | the loop over the lines; stated by `ScanComments`, `RunAppend`, `MultilineParity` and `MultilineBlock` |
| CommentScanner.ScanComments | test.py:9-27 | the loop prints exactly what the scan prints |
| CommentScanner.RunAppend | test.py:9-27 | scanning two runs of lines is scanning their concatenation |
| CommentScanner.MultilineParity | test.py:12-13 | each `'''` line flips the multi-line flag and no other line does |
| CommentScanner.StepReports | test.py:12-27 | one line prints at most one report |
| CommentScanner.OnlyReportsPrinted | test.py:9-27 | printed lines are only ever added, and each one is a report |
| CommentScanner.GatherBody | test.py:18-19 | inside a multi-line comment every line is appended with no separator |
| CommentScanner.OpenStep | test.py:12-19 | a `'''` line opens a multi-line comment starting with the delimiter itself |
| CommentScanner.CloseStep | test.py:12-16 | a `'''` line inside a comment prints it with the closing delimiter and clears it |
| CommentScanner.MultilineBlock | test.py:12-19 | a whole multi-line block is printed whatever it holds, with any pending comment in front |
| CommentScanner.HashLine | test.py:21-27 | a `#` line's comment is printed only when it holds the keyword, and otherwise kept |
| CommentScanner.LeftoverPrefixesBlock | test.py:19-27 | a comment without the keyword is not cleared and ends up in front of the next multi-line comment |
| CommentScanner.KeywordCaseSensitive | test.py:1-27 | the keyword match is case-sensitive, despite the header |
| CommentScanner.TextAfterLastQuote | test.py:21-22 | only the text after the last `"` is examined |
| Text.Trim | server/routes/blogRoutes.js:20 | trimming removes exactly the leading and trailing whitespace |
| Text.TrimIdempotent | server/routes/blogRoutes.js:20 | trimming twice is trimming once |
| Text.JoinContains | server/services/ai_service.py:175-178 | every part occurs in the joined string |
| Text.IndexOf | server/routes/blogRoutes.js:18 | `indexOf` finds the first occurrence, or reports that there is none |
| Text.ToLowerAscii | server/routes/blogRoutes.js:18 | lower-casing maps `A`..`Z` to `a`..`z` and keeps every other character |
| Text.DigitsValueOfNatToString | client/src/App.tsx:330-339 | rendering a number and parsing it back gives the number |
| Text.PadTwo | server/scrapers/blogScraper.js:55 | two-digit zero padding of a number below 100 is two digits with its value |
| StableSort.Filter | server/services/ai_service.py:281-284 | the kept elements satisfy the condition, every element satisfying it is kept, and nothing else is |
| StableSort.FilterAppend | server/services/ai_service.py:281-284 | filtering distributes over concatenation |
| StableSort.SortDesc | server/services/ai_service.py:287 | the sort is a permutation in non-increasing key order |
| StableSort.InsertSorted | server/services/ai_service.py:287 | inserting into a sorted sequence keeps it sorted |
| StableSort.SortDescStable | server/services/ai_service.py:287 | among elements with equal keys the sorted order is the input order |
| StableSort.Take | server/services/ai_service.py:288 | the first `n` elements, or all of them when there are fewer |
| StableSort.TakeOfSortedIsTop | server/services/ai_service.py:287-288 | the first `n` of the sorted elements score at least as high as the rest, and together they are the input |

## Left out

- The language model, the embedding service, the vector search and the database are function
  parameters or given data:
  - `generate_embedding`, `find_similar_*`, the chat completions;
  - `saveToSupabase`, a `store` parameter that accepts or rejects each insert, and
    `generateQuestions`;
  - the Supabase reads of the update route.
- `create_simulated_chat` (server/services/ai_service.py:301 on) is not modelled. It only
  builds a prompt for the language model. The client's side of the simulation is modelled.
- The HTTP route handlers (`server/app.py`, `server/index.js`) are not modelled. The caller's
  choice of the last four user messages is left to the caller of
  `ContextFusion.GetRelevantContext`, which accepts any list.
- `server/index.js:47` calls functions that `aiService.js` does not define, and that path is
  not modelled.
- `blogRoutes.js` imports `processAndSaveArticles` from the segmenter script, which exports
  nothing. `BlogRoutes.UpdateBlogs` models the consequence: the list handed over is
  `BlogRoutes.ToSave`, and the call itself throws. Requiring the script also starts its own
  `processArticles()` run, a side effect that is not modelled.
- Reading and writing files is not modelled, and neither are logging, the statistics printed by
  the segmenter and the analysis script, or rate-limit sleeps. The `process.exit(1)` after a
  rejected insert in the embedding scripts is the run ending with `completed` false.
- `test.py` takes the lines of the file as its input; `splitlines` and the missing-file message
  are not modelled. What it prints is the `printed` sequence.
- The current date is a parameter:
  - `datetime.now()` is a `CalendarDate`;
  - `toLocaleDateString` is an opaque string;
  - month names come from a fixed English table.
- Similarity scores and weights are exact reals. The model does not capture IEEE rounding, so
  `1 - 0.2 * i` is exact.
- The regular expressions are hand-written scanners for the specific patterns. They model ASCII
  whitespace only, so the Unicode spaces matched by `\s` and `trim` are not modelled.
- `toLowerCase` is ASCII-only, so non-ASCII case mapping in `filterSkipAiContent` is not modelled.
- `parseInt` on very long digit strings (precision loss above 2^53) is not modelled.
- Object keys in `processResponseText` are modelled as a map from strings. JavaScript prototype
  keys such as `constructor` are not modelled.
- HTML parsing and fetching are not modelled:
  - cheerio `extractArticleUrls` and `parseArticle`;
  - the HTTP client and the Blogger API with its OAuth;
  - `convertHtmlToText`, which is a function parameter.
- The MCP manager is modelled sequentially:
  - the `connecting`/`initPromise` guard and the `Promise.all` fan-out are not modelled;
  - the signal handlers are not modelled;
  - the SDK client and its transport are a `listTools` and an `invoke` parameter.
- In the Snake game the following are not modelled:
  - DOM measurements (`calculateDotsPositions`), which are given as `laidOut`;
  - fractional pixel coordinates;
  - React's stale closures and effect scheduling.

  The random draws are parameters, and `initialDotCount` is assumed to be at least 1.
- The styled components, the authentication context, `blogParser.ts` and the gradient
  components are not part of this model.
- ServerAiService.FormatUserPrompt: the date is an opaque string, because `toLocaleDateString`
  depends on the locale.
- Lengths are counted in characters, not UTF-16 code units. JavaScript's `.length` and
  `substring` count a character outside the Basic Multilingual Plane (an emoji, say) twice.
  For text holding such characters the model therefore differs in three places:
  - the 100-character merge threshold of `combineShortParagraphs`
    (`splitArticlesToParagraphs.js` lines 18-24);
  - the 800-character split threshold of `createOverlappingSegments` (lines 40-54);
  - the lengths that `analyzeParagraphs.js` records and ranks (lines 22-36).
- Digits are ASCII only. Python's `\d` in `extract_date_from_url`
  (`server/services/ai_service.py` line 158) also matches other Unicode decimal digits, such
  as Arabic-Indic ones; the date fragment of the Python service does not model those.
- ClientChat.ChatWindow.HandleSubmit: models the corrected outcome `ClientChat.SubmitOutcome`,
  which stores the renumbered reply with its links table. The code as written stores the raw
  reply with `links` undefined (`ClientChat.SubmitOutcomeAsWritten`); see the App.tsx row under
  "## Findings".
- SnakeGame.Snake.KeyDown: draws the first target with the corrected `SnakeGame.Target`. The
  code as written uses `SnakeGame.RandomTarget`, which can land off the screen; see the
  LoadingDots.tsx row under "## Findings".
- SnakeGame.Snake.UpdatePositions: draws each new target with the corrected
  `SnakeGame.Target` instead of the as-written `SnakeGame.RandomTarget`; see the LoadingDots.tsx
  row under "## Findings".
- EtlBatches.SegmentEmbeddingMain: models the body of `main` in
  `server/scripts/embeddingsGenerator.js` (lines 53-99) as if the file loaded. As written it
  does not. Line 18 declares `export async function generateEmbedding` in a file that uses
  `require` (lines 1-5) and `__dirname` (line 56). Read as CommonJS, like the other server
  scripts, `export` is a syntax error. Read as an ES module, `require` is undefined. Either way
  `main` never runs and nothing is saved.
- QuestionCreator.Run: the generator parameter returns either a failure or a list of strings,
  so the model assumes that `JSON.parse` of the language model's reply
  (`server/scripts/questionCreator.js` line 49) yields an array of strings. The source does
  not promise this, and the following reply shapes are not modelled:
  - a JSON object: `questions.length` is `undefined`, so `questionCount` becomes `NaN` (line
    94). `NaN >= 20` is false (line 80), so the 20-question stop never fires again.
  - JSON `null`: the record is pushed (line 88), then line 94 throws and line 101 catches it.
    The record stays but `processedCount` is not incremented. `QuestionCreator.RunCounts`'
    `processedCount == |allQuestions|` then fails.
  - a JSON string: its character count is added to the question count.
  The same assumption holds for `QuestionCreator.RunCounts` and
  `QuestionCreator.QuestionCreatorMain`.
- ClientChat.Simulate: the server's answer is assumed to be either an error or a JSON body with a
  string `reply`. A body without `reply` (for instance a non-2xx answer with an error body,
  `client/src/App.tsx` lines 406-416) is not modelled: the source then appends a message whose
  content is `undefined` and keeps simulating.
- The Python service is assumed to run on Python 3.12 or later. `server/services/ai_service.py`
  line 192 writes `'\n\n'.join(...)` inside an f-string replacement field, and a backslash
  there is a syntax error before Python 3.12 (PEP 701).
- ContextFusion.GetRelevantContext: the scaling is modelled on values. The source scales the
  retrieved dictionaries in place, and that aliasing is not modelled.

## Findings

| source | as written | input that shows it | evidently intended | confidence | as-written member | corrected member |
|---|---|---|---|---|---|---|
| client/src/App.tsx:459-474 | `const { processedText, links } = processResponseText(...)` inside the `if` declares new bindings that shadow the outer `let`s, so the stored message is the raw reply with `links` undefined | a reply `[5]` with `linkData = {"5": url}` is stored as `[5]` and shown without links | the renumbered reply `[1]` stored with the links table `{1: url}` | high (not executed) | ClientChat.ShadowedReplyKeepsSegmentIds (with ClientChat.SubmitOutcomeAsWritten) | ClientChat.SubmitOutcome |
| client/src/components/LoadingDots.tsx:86-90 | the target is `round(floor(random * width) / 20) * 20`, which can round up past the last grid line whose dot fits | a width of 1000 and a draw of 999 give x = 1000, off the screen | a target whose dot lies wholly on the screen | medium (not executed) | SnakeGame.TargetCanLeaveScreen (with SnakeGame.RandomTarget) | SnakeGame.Target |
