/** The chat window of the web client: sending a question (`handleSubmit`)
    and the self-playing conversation (`simulateConversation`). React state
    becomes the fields of `ChatWindow`; the server is a function from the
    request to its response, so the model fixes what was asked and lets the
    answer be anything. */
module ClientChat {
  import opened Text
  import opened Markers
  import opened ClientLinks

  /** A message as the client keeps it; `links` is absent for user
      messages, simulated messages and error messages. */
  datatype ClientMessage = ClientMessage(content: string, isAI: bool, links: Option<map<nat, Option<string>>>)

  /** What `fetch` plus `response.json()` delivered: an HTTP answer, or an
      exception (network failure, bad JSON) already turned into text. */
  datatype ServerResponse =
    | Response(ok: bool, status: int, reply: Option<string>, linkData: map<string, string>)
    | Thrown(error: string)

  /** The message shown when `handleSubmit` catches an error (two spaces
      before the error text, as in the source). */
  function SubmitError(error: string): ClientMessage {
    ClientMessage("Sorry it seems like somethings wrong!  " + error, true, None)
  }

  /** The message shown when the simulation catches an error (one space). */
  function SimulationError(error: string): ClientMessage {
    ClientMessage("Sorry it seems like somethings wrong! " + error, true, None)
  }

  /** Whether the server produced a usable reply: an `ok` response whose
      `reply` is a non-empty string (JavaScript truthiness). */
  predicate Answered(response: ServerResponse) {
    response.Response? && response.ok && response.reply.Some? && response.reply.value != ""
  }

  /** The error text `String(error)` gives for each failure. */
  function FailureText(response: ServerResponse): string
    requires !Answered(response)
  {
    match response
    case Thrown(e) => e
    case Response(ok, status, _, _) =>
      if !ok then "Error: Server returned " + IntToString(status)
      else "Error: Got empty server response"
  }

  /** The AI message `handleSubmit` appends, as written: the processed text
      and links are bound to block-scoped constants that shadow the outer
      `processedText` and `links`, so the raw reply is stored and no links
      table is attached. */
  function SubmitOutcomeAsWritten(response: ServerResponse): (m: ClientMessage)
    ensures Answered(response) ==> m == ClientMessage(response.reply.value, true, None)
    ensures !Answered(response) ==> m == SubmitError(FailureText(response))
  {
    if Answered(response) then ClientMessage(response.reply.value, true, None)
    else SubmitError(FailureText(response))
  }

  /** The AI message `handleSubmit` is evidently meant to append: the
      renumbered reply with its links table. */
  function SubmitOutcome(response: ServerResponse): (m: ClientMessage)
    ensures m.isAI
    ensures m.links.Some? <==> Answered(response)
    ensures !Answered(response) ==> m == SubmitError(FailureText(response))
  {
    if Answered(response) then
      var ts := Tokenize(response.reply.value);
      ClientMessage(Processed(ts, response.linkData), true, Some(LinksOf(Order(ts, response.linkData))))
    else SubmitError(FailureText(response))
  }

  /** The shadowing loses the renumbering: for the reply `[5]` citing one
      segment, the stored message keeps `[5]` and has no links (so it is
      shown as plain text), where the intended message reads `[1]` and links
      number 1 to the segment's URL. */
  lemma ShadowedReplyKeepsSegmentIds(url: string)
    ensures var response := Response(true, 200, Some("[5]"), map["5" := url]);
            SubmitOutcomeAsWritten(response) == ClientMessage("[5]", true, None) &&
            RenderMessageWithLinks(SubmitOutcomeAsWritten(response).content, None) == [TextPiece("[5]")] &&
            SubmitOutcome(response) == ClientMessage("[1]", true, Some(map[1 := Some(url)]))
  {
    var linkData := map["5" := url];
    var response := Response(true, 200, Some("[5]"), map["5" := url]);
    assert AllDigits("5") by { assert IsDigit("5"[0]); }
    ReplyOfOneMarker("5");
    assert "[" + "5" + "]" == "[5]";
    var ts := [Marker("5")];
    assert Tokenize(response.reply.value) == ts;
    assert ts[..0] == [];
    assert Order(ts, linkData) == [Some(url)];
    assert Processed(ts, linkData) == "[1]" by {
      assert NatToString(1) == "1";
    }
    LinksOfOne(Some(url));
  }

  lemma LinksOfOne(u: Option<string>)
    ensures LinksOf([u]) == map[1 := u]
  {
    var l := LinksOf([u]);
    assert forall n: nat :: n in l <==> n == 1;
    assert l.Keys == {1};
  }

  /** A reply consisting of one marker tokenizes to that marker. */
  lemma ReplyOfOneMarker(d: string)
    requires d != [] && AllDigits(d)
    ensures Tokenize("[" + d + "]") == [Marker(d)]
  {
    MarkerTokenizes(d, "");
    assert "[" + d + "]" + "" == "[" + d + "]";
    var s := "[" + d + "]";
    assert s[|d| + 2..] == "";
  }

  /** In the intended reply every marker is a link to its own segment's
      URL, and a reply without markers is stored as it came. */
  lemma SubmittedReplyLinks(response: ServerResponse, j: nat)
    requires Answered(response)
    requires j < |Tokenize(response.reply.value)| && Tokenize(response.reply.value)[j].Marker?
    ensures var ts := Tokenize(response.reply.value);
            var links := SubmitOutcome(response).links.value;
            NumberAt(ts, j, response.linkData) in links &&
            UrlKey(links[NumberAt(ts, j, response.linkData)]) == KeyAt(ts, j, response.linkData)
  {
    MarkerLinksToItsUrl(Tokenize(response.reply.value), j, response.linkData);
  }

  lemma SubmittedPlainReplyUnchanged(response: ServerResponse)
    requires Answered(response) && NoMarkers(Tokenize(response.reply.value))
    ensures SubmitOutcome(response) == ClientMessage(response.reply.value, true, Some(map[]))
  {
    NoMarkersUnchanged(response.reply.value, response.linkData);
  }

  /** `simulateConversation`: while the history has at most 20 messages,
      ask the server for the next turn (a user turn when the history length
      is even) and append it; the first failure appends an error message and
      ends the run. `respond` stands for the server. */
  function Simulate(current: seq<ClientMessage>, respond: (seq<ClientMessage>, bool) -> Result<string>): (appended: seq<ClientMessage>)
    ensures |current| > 20 ==> appended == []
    ensures |current| + |appended| <= 21 || |current| > 20
    ensures forall k :: 0 <= k < |appended| ==> appended[k].links.None?
    decreases 21 - |current|
  {
    if |current| > 20 then []
    else
      var isUser := |current| % 2 == 0;
      match respond(current, isUser)
      case Failure(e) => [SimulationError(e)]
      case Ok(reply) =>
        var m := ClientMessage(reply, !isUser, None);
        [m] + Simulate(current + [m], respond)
  }

  /** A server that always answers. */
  ghost predicate AlwaysAnswers(respond: (seq<ClientMessage>, bool) -> Result<string>) {
    forall h, u :: respond(h, u).Ok?
  }

  /** With a server that always answers, the simulation fills the history
      up to 21 messages, the speakers alternate, and the first new message
      belongs to the side whose turn the history length says it is. */
  lemma {:induction false} SimulationRunsToLimit(current: seq<ClientMessage>, respond: (seq<ClientMessage>, bool) -> Result<string>)
    requires AlwaysAnswers(respond)
    requires |current| <= 21
    ensures var appended := Simulate(current, respond);
            |current| + |appended| == 21 &&
            (appended != [] ==> appended[0].isAI == (|current| % 2 == 1)) &&
            forall k :: 0 <= k < |appended| - 1 ==> appended[k].isAI != appended[k + 1].isAI
    decreases 21 - |current|
  {
    if |current| <= 20 {
      var isUser := |current| % 2 == 0;
      var m := ClientMessage(respond(current, isUser).value, !isUser, None);
      var rest := Simulate(current + [m], respond);
      SimulationRunsToLimit(current + [m], respond);
      if rest != [] {
        assert rest[0].isAI == ((|current| + 1) % 2 == 1);
      }
      var appended := [m] + rest;
      forall k | 0 <= k < |appended| - 1 ensures appended[k].isAI != appended[k + 1].isAI {
        if k > 0 {
          assert appended[k] == rest[k - 1] && appended[k + 1] == rest[k];
        }
      }
    }
  }

  /** Each request carries the whole conversation so far: the `k`-th
      server call sees the starting history followed by the first `k`
      appended messages, and every appended message but an error is the
      server's answer to that call. */
  lemma {:induction false} SimulationRequests(current: seq<ClientMessage>, respond: (seq<ClientMessage>, bool) -> Result<string>, k: nat)
    requires |current| <= 20
    requires k < |Simulate(current, respond)|
    ensures var history := current + Simulate(current, respond)[..k];
            var answer := respond(history, |history| % 2 == 0);
            Simulate(current, respond)[k] ==
              (if answer.Ok? then ClientMessage(answer.value, |history| % 2 == 1, None) else SimulationError(answer.error))
    decreases 21 - |current|
  {
    var appended := Simulate(current, respond);
    var isUser := |current| % 2 == 0;
    if k == 0 {
      assert current + appended[..0] == current;
    } else {
      var m := ClientMessage(respond(current, isUser).value, !isUser, None);
      var rest := Simulate(current + [m], respond);
      assert appended == [m] + rest;
      SimulationRequests(current + [m], respond, k - 1);
      HistoryShift(current, m, rest, k);
      assert appended[k] == rest[k - 1];
    }
  }

  lemma HistoryShift<T>(current: seq<T>, m: T, rest: seq<T>, k: nat)
    requires 0 < k <= |rest| + 1
    ensures current + ([m] + rest)[..k] == (current + [m]) + rest[..k - 1]
  {
    assert ([m] + rest)[..k] == [m] + rest[..k - 1];
  }

  /** The chat window's state. */
  class ChatWindow {
    var messages: seq<ClientMessage>
    var inputMessage: string
    var loading: bool

    constructor ()
      ensures messages == [] && inputMessage == "" && !loading
    {
      messages := [];
      inputMessage := "";
      loading := false;
    }

    /** Typing into the input box. */
    method SetInput(text: string)
      modifies this
      ensures inputMessage == text && messages == old(messages) && loading == old(loading)
    {
      inputMessage := text;
    }

    /** `handleSubmit`: a blank input does nothing; otherwise the user
        message is appended, the input cleared, the whole conversation sent,
        and the reply (renumbered, with its links) or an error message
        appended. */
    method HandleSubmit(server: seq<ClientMessage> -> ServerResponse)
      modifies this
      ensures Trim(old(inputMessage)) == [] ==>
                messages == old(messages) && inputMessage == old(inputMessage) && loading == old(loading)
      ensures Trim(old(inputMessage)) != [] ==>
                var userMessage := ClientMessage(old(inputMessage), false, None);
                messages == old(messages) + [userMessage, SubmitOutcome(server(old(messages) + [userMessage]))] &&
                inputMessage == "" && !loading
    {
      if Trim(inputMessage) != [] {
        var userMessage := ClientMessage(inputMessage, false, None);
        var request := messages + [userMessage];
        messages := messages + [userMessage];
        inputMessage := "";
        loading := true;
        var response := server(request);
        var aiMessage: ClientMessage;
        if !response.Response? {
          aiMessage := SubmitError(response.error);
        } else if !response.ok {
          aiMessage := SubmitError("Error: Server returned " + IntToString(response.status));
        } else if response.reply.Some? && response.reply.value != "" {
          var processedText, links := ProcessResponseText(response.reply.value, response.linkData);
          aiMessage := ClientMessage(processedText, true, Some(links));
        } else {
          aiMessage := SubmitError("Error: Got empty server response");
        }
        messages := messages + [aiMessage];
        loading := false;
      }
    }

    /** `startSimulation`: play a conversation from an empty history and
        append every message it produces to the window. */
    method StartSimulation(respond: (seq<ClientMessage>, bool) -> Result<string>)
      modifies this
      ensures messages == old(messages) + Simulate([], respond)
      ensures inputMessage == old(inputMessage) && !loading
    {
      messages := messages + Simulate([], respond);
      loading := false;
    }
  }
}
