/** The global assistant's turn logic (the `GlobalChatbot` component): the
    chat history, the input box and the loading flag, how a message is
    classified as feedback or as a query, the prompt sent to the completion
    service and the fixed replies. The three network calls (the corpus
    fetch, the feedback post and the completion post) are not performed:
    their outcomes are inputs. */
module Chatbot {
  import opened Wrappers
  import opened Text

  datatype Sender = User | Chatbot

  /** An entry of `chatbotMessages`. */
  datatype Message = Message(sender: Sender, message: string)

  const ThankYou: string := "Thank you for your feedback! I've recorded it and it will be reviewed by the administration."
  const Apology: string := "I apologize, but I couldn't save your feedback at this moment. Please try again later."
  const NoResponse: string := "No response received."
  const Sorry: string := "Sorry, I couldn't process your request."

  // ---------------------------------------------------------------------
  // String.prototype.trim and toLowerCase
  // ---------------------------------------------------------------------

  /** The characters `trim()` removes: ECMAScript WhiteSpace and
      LineTerminator. */
  predicate IsJsSpace(c: char)
  {
    c == ' ' || '\t' <= c <= '\r' || c == '\U{A0}' || c == '\U{1680}' || '\U{2000}' <= c <= '\U{200A}'
    || c == '\U{2028}' || c == '\U{2029}' || c == '\U{202F}' || c == '\U{205F}' || c == '\U{3000}'
    || c == '\U{FEFF}'
  }

  function TrimStart(s: string): string
    decreases |s|
  {
    if s != [] && IsJsSpace(s[0]) then TrimStart(s[1..]) else s
  }

  function TrimEnd(s: string): string
    decreases |s|
  {
    if s != [] && IsJsSpace(s[|s| - 1]) then TrimEnd(s[..|s| - 1]) else s
  }

  /** `s.trim()`. */
  function Trim(s: string): string
  {
    TrimEnd(TrimStart(s))
  }

  /** `userMessage.trim() === ""`. */
  predicate IsBlankInput(s: string)
  {
    Trim(s) == ""
  }

  /** An input is rejected exactly when every character of it is whitespace
      (the empty input included). */
  lemma {:induction false} BlankInputIffAllSpace(s: string)
    ensures IsBlankInput(s) <==> forall i :: 0 <= i < |s| ==> IsJsSpace(s[i])
    decreases |s|
  {
    if s != [] && IsJsSpace(s[0]) {
      BlankInputIffAllSpace(s[1..]);
      assert forall i :: 1 <= i < |s| ==> s[i] == s[1..][i - 1];
    } else if s != [] {
      TrimEndKeepsLast(s);
    }
  }

  /** `trimEnd` keeps a string whose first character is not whitespace
      non-empty. */
  lemma {:induction false} TrimEndKeepsLast(s: string)
    requires s != [] && !IsJsSpace(s[0])
    ensures TrimEnd(s) != ""
    decreases |s|
  {
    if IsJsSpace(s[|s| - 1]) {
      TrimEndKeepsLast(s[..|s| - 1]);
    }
  }

  /** What `toLowerCase()` does to a character, as far as the test for the
      ASCII word "feedback" can tell: ASCII capitals become small letters
      and KELVIN SIGN becomes 'k'. Every other upper-case character lowers
      to characters outside ASCII (or, for U+0130, to 'i' and a combining
      dot, neither of which is in the word), so it is left as it is. */
  function LowerChar(c: char): (l: char)
    ensures 'A' <= c <= 'Z' ==> l as int == c as int + 32
    ensures c == '\U{212A}' ==> l == 'k'
    ensures !('A' <= c <= 'Z') && c != '\U{212A}' ==> l == c
    ensures 'a' <= l <= 'z' <==> 'a' <= c <= 'z' || 'A' <= c <= 'Z' || (c == '\U{212A}' && l == 'k')
  {
    if 'A' <= c <= 'Z' then (c as int + 32) as char
    else if c == '\U{212A}' then 'k'
    else c
  }

  /** `s.toLowerCase()`, character by character (JavaScript lengthens only
      U+0130, see `LowerChar`). */
  function ToLower(s: string): (r: string)
    ensures |r| == |s|
    ensures forall i :: 0 <= i < |s| ==> r[i] == LowerChar(s[i])
  {
    seq(|s|, i requires 0 <= i < |s| => LowerChar(s[i]))
  }

  /** The spellings of "feedback" that `toLowerCase()` maps to it: each
      letter small or capital, and KELVIN SIGN for the final 'k'. */
  lemma WordCases(w: string)
    ensures ToLower(w) == "feedback" <==>
              |w| == 8 && forall j :: 0 <= j < 8 ==>
                w[j] == "feedback"[j] || w[j] == "FEEDBACK"[j] || (j == 7 && w[j] == '\U{212A}')
  {
  }

  // ---------------------------------------------------------------------
  // The pure parts of a turn
  // ---------------------------------------------------------------------

  /** The feedback test: the lower-cased message contains "feedback". */
  predicate IsFeedback(message: string)
  {
    Contains(ToLower(message), "feedback")
  }

  /** A message that mentions the word anywhere, in any mix of cases, is
      taken for feedback. */
  lemma FeedbackWordAnywhere(before: string, word: string, after: string)
    requires ToLower(word) == "feedback"
    ensures IsFeedback(before + word + after)
  {
    var m := before + word + after;
    ContainsOccurs(ToLower(m), "feedback");
    assert ToLower(m)[|before|..|before| + 8] == ToLower(word);
    assert OccursAt(ToLower(m), "feedback", |before|);
  }

  /** The eight characters of `message` from index `i` lower-case to the
      word "feedback". */
  predicate FeedbackWordAt(message: string, i: nat)
  {
    i + 8 <= |message| && ToLower(message[i..i + 8]) == "feedback"
  }

  /** Conversely, a message is taken for feedback only when eight
      consecutive characters of it lower-case to the word. */
  lemma FeedbackHasWord(message: string)
    requires IsFeedback(message)
    ensures exists i: nat :: FeedbackWordAt(message, i)
  {
    ContainsOccurs(ToLower(message), "feedback");
    var i: nat :| OccursAt(ToLower(message), "feedback", i);
    assert ToLower(message)[i..i + 8] == ToLower(message[i..i + 8]);
    assert FeedbackWordAt(message, i);
  }

  /** A message none of whose characters lower-cases to 'f' is an ordinary
      query. */
  lemma NoLetterFNotFeedback(message: string)
    requires forall i :: 0 <= i < |message| ==> LowerChar(message[i]) != 'f'
    ensures !IsFeedback(message)
  {
    var m := ToLower(message);
    ContainsOccurs(m, "feedback");
    forall i: nat
      ensures !OccursAt(m, "feedback", i)
    {
      if i + 8 <= |m| {
        assert m[i..i + 8][0] == m[i] != 'f';
      }
    }
  }

  /** A question about the exam schedule goes to the completion service. */
  lemma ExamQuestionNotFeedback(message: string)
    requires message == "The exam schedule please"
    ensures !IsFeedback(message)
  {
    NoLetterFNotFeedback(message);
  }

  /** Lower-casing the message first does not change its classification. */
  lemma FeedbackIgnoresCase(message: string)
    ensures IsFeedback(ToLower(message)) == IsFeedback(message)
  {
    assert ToLower(ToLower(message)) == ToLower(message);
  }

  /** The prompt of a query: the fixed label, the knowledge base, a blank
      line, and the user's message as typed. */
  function Prompt(knowledgeBase: string, message: string): (p: string)
    ensures |p| == 30 + |knowledgeBase| + |message|
    ensures p[..16] == "Knowledge Base:\n"
    ensures p[16..16 + |knowledgeBase|] == knowledgeBase
    ensures p[16 + |knowledgeBase|..30 + |knowledgeBase|] == "\n\nUser query: "
    ensures p[30 + |knowledgeBase|..] == message
  {
    "Knowledge Base:\n" + knowledgeBase + "\n\nUser query: " + message
  }

  /** For a fixed knowledge base the prompt determines the query. */
  lemma PromptDeterminesQuery(knowledgeBase: string, m1: string, m2: string)
    requires Prompt(knowledgeBase, m1) == Prompt(knowledgeBase, m2)
    ensures m1 == m2
  {
    assert m1 == Prompt(knowledgeBase, m1)[30 + |knowledgeBase|..];
  }

  /** The answer text if the response has a truthy one, else the fixed
      fallback; the reply is never empty. */
  function BotResponse(text: Option<string>): (r: string)
    ensures r != ""
    ensures text.Some? && text.value != "" ==> r == text.value
    ensures text == None || text == Some("") ==> r == NoResponse
  {
    if text.Some? && text.value != "" then text.value else NoResponse
  }

  /** The request a non-blank message sends. */
  datatype Request = FeedbackPost(message: string, userId: Option<int>) | CompletionPost(prompt: string)

  /** The feedback post either succeeds or throws. */
  datatype FeedbackOutcome = Saved | SaveFailed

  /** The completion post either answers, with or without a text at
      `candidates[0].content.parts[0].text`, or throws. */
  datatype CompletionOutcome = Responded(text: Option<string>) | RequestFailed

  /** What the network would answer to either request. */
  datatype Network = Network(feedback: FeedbackOutcome, completion: CompletionOutcome)

  /** Which service a message goes to: feedback messages are posted as they
      were typed and never reach the completion service. */
  function Dispatch(message: string, knowledgeBase: string, userId: Option<int>): (r: Request)
    ensures r.FeedbackPost? <==> IsFeedback(message)
    ensures r.FeedbackPost? ==> r.message == message && r.userId == userId
    ensures r.CompletionPost? ==> r.prompt == Prompt(knowledgeBase, message)
  {
    if IsFeedback(message) then FeedbackPost(message, userId)
    else CompletionPost(Prompt(knowledgeBase, message))
  }

  /** The reply appended once the feedback post settles. */
  function FeedbackReply(outcome: FeedbackOutcome): (r: string)
    ensures r == ThankYou <==> outcome == Saved
    ensures r == Apology <==> outcome == SaveFailed
  {
    match outcome
    case Saved => ThankYou
    case SaveFailed => Apology
  }

  /** The reply appended once the completion post settles. */
  function CompletionReply(outcome: CompletionOutcome): (r: string)
    ensures r != ""
    ensures outcome == RequestFailed ==> r == Sorry
    ensures outcome.Responded? ==> r == BotResponse(outcome.text)
  {
    match outcome
    case Responded(text) => BotResponse(text)
    case RequestFailed => Sorry
  }

  /** The reply to `request` when the network answers as `network` says. */
  function Reply(request: Request, network: Network): string
  {
    match request
    case FeedbackPost(_, _) => FeedbackReply(network.feedback)
    case CompletionPost(_) => CompletionReply(network.completion)
  }

  /** The history after one turn of `handleSendMessage` on `message`. */
  function TurnHistory(history: seq<Message>, message: string, knowledgeBase: string,
                       userId: Option<int>, network: Network): seq<Message>
  {
    if IsBlankInput(message) then history
    else history + [Message(User, message), Message(Chatbot, Reply(Dispatch(message, knowledgeBase, userId), network))]
  }

  /** A turn on a non-blank message appends the message as typed and then
      one reply: one of the two fixed feedback replies on the feedback
      path; the fallback, the apology for a failed request, or the answer
      itself on the query path. */
  lemma TurnAppendsMessageThenReply(history: seq<Message>, message: string, knowledgeBase: string,
                                    userId: Option<int>, network: Network)
    requires !IsBlankInput(message)
    ensures var h := TurnHistory(history, message, knowledgeBase, userId, network);
            |h| == |history| + 2 && h[..|history|] == history
            && h[|history|] == Message(User, message) && h[|history| + 1].sender == Chatbot
            && (IsFeedback(message) ==> h[|history| + 1].message in {ThankYou, Apology})
            && (!IsFeedback(message) ==>
                  h[|history| + 1].message == Sorry || h[|history| + 1].message == NoResponse
                  || (network.completion.Responded? && Some(h[|history| + 1].message) == network.completion.text))
  {
  }

  /** One message typed into the input box, and how the network answers
      the request it sends. */
  datatype TurnInput = TurnInput(message: string, network: Network)

  /** The history after the turns `turns`, taken one after the other. */
  function Conversation(history: seq<Message>, knowledgeBase: string, userId: Option<int>,
                        turns: seq<TurnInput>): seq<Message>
    decreases |turns|
  {
    if turns == [] then history
    else
      var last := turns[|turns| - 1];
      TurnHistory(Conversation(history, knowledgeBase, userId, turns[..|turns| - 1]),
                  last.message, knowledgeBase, userId, last.network)
  }

  /** Number of turns whose message is not blank. */
  function SentCount(turns: seq<TurnInput>): nat
    decreases |turns|
  {
    if turns == [] then 0
    else SentCount(turns[..|turns| - 1]) + (if IsBlankInput(turns[|turns| - 1].message) then 0 else 1)
  }

  /** The history only grows: it keeps its prefix, gains two entries per
      sent message, and the new entries come in pairs, a user message
      followed by a chatbot reply. */
  lemma {:induction false} ConversationAppendOnly(history: seq<Message>, knowledgeBase: string,
                                                  userId: Option<int>, turns: seq<TurnInput>)
    ensures var h := Conversation(history, knowledgeBase, userId, turns);
            |h| == |history| + 2 * SentCount(turns) && h[..|history|] == history
            && forall k :: 0 <= k < SentCount(turns) ==>
                 h[|history| + 2 * k].sender == User && h[|history| + 2 * k + 1].sender == Chatbot
    decreases |turns|
  {
    if turns != [] {
      var init, last := turns[..|turns| - 1], turns[|turns| - 1];
      ConversationAppendOnly(history, knowledgeBase, userId, init);
      var prev := Conversation(history, knowledgeBase, userId, init);
      var h := Conversation(history, knowledgeBase, userId, turns);
      assert h == TurnHistory(prev, last.message, knowledgeBase, userId, last.network);
      if !IsBlankInput(last.message) {
        var n := |prev|;
        assert h[..n] == prev && h[n].sender == User && h[n + 1].sender == Chatbot;
        forall k | 0 <= k < SentCount(turns)
          ensures h[|history| + 2 * k].sender == User && h[|history| + 2 * k + 1].sender == Chatbot
        {
          if k < SentCount(init) {
            assert h[|history| + 2 * k] == prev[|history| + 2 * k];
            assert h[|history| + 2 * k + 1] == prev[|history| + 2 * k + 1];
          }
        }
      }
    }
  }

  // ---------------------------------------------------------------------
  // The component's state
  // ---------------------------------------------------------------------

  /** What the corpus fetch at mount time yields. */
  datatype CorpusResponse = CorpusOk(content: string) | CorpusFailed

  class GlobalChatbot {
    var chatbotMessages: seq<Message>
    var userMessage: string
    var isLoading: bool
    var knowledgeBase: string
    /** The request the turn in progress is waiting on. */
    var inFlight: Option<Request>
    /** The history as the turn in progress extended it (`newMessages`). */
    var newMessages: seq<Message>

    /** A turn is in progress exactly while loading, and until it settles
        the history is the one it extended with the user's message. */
    ghost predicate Valid()
      reads this
    {
      (isLoading <==> inFlight.Some?)
      && (isLoading ==> chatbotMessages == newMessages && |newMessages| > 0
                        && newMessages[|newMessages| - 1].sender == User)
    }

    /** The component as first rendered: no history, an empty input, not
        loading, and an empty knowledge base until the fetch succeeds. */
    constructor ()
      ensures Valid()
      ensures chatbotMessages == [] && userMessage == "" && !isLoading && knowledgeBase == ""
    {
      chatbotMessages := [];
      userMessage := "";
      isLoading := false;
      knowledgeBase := "";
      inFlight := None;
      newMessages := [];
    }

    /** `fetchKnowledgeBase`: a successful fetch stores the corpus; a failed
        one leaves the knowledge base as it was. */
    method FetchKnowledgeBase(response: CorpusResponse)
      modifies this`knowledgeBase
      ensures knowledgeBase == (if response.CorpusOk? then response.content else old(knowledgeBase))
    {
      if response.CorpusOk? {
        knowledgeBase := response.content;
      }
    }

    /** The input box's `onChange`. */
    method SetUserMessage(text: string)
      modifies this`userMessage
      ensures userMessage == text
    {
      userMessage := text;
    }

    /** `handleSendMessage` up to its first `await`: a blank input changes
        nothing; otherwise the message is appended, the input cleared, the
        loading flag raised and the request sent. */
    method SendMessage(userId: Option<int>) returns (request: Option<Request>)
      requires Valid() && !isLoading
      modifies this
      ensures Valid() && knowledgeBase == old(knowledgeBase)
      ensures IsBlankInput(old(userMessage)) ==>
                request == None && chatbotMessages == old(chatbotMessages)
                && userMessage == old(userMessage) && !isLoading
      ensures !IsBlankInput(old(userMessage)) ==>
                request == Some(Dispatch(old(userMessage), knowledgeBase, userId))
                && chatbotMessages == old(chatbotMessages) + [Message(User, old(userMessage))]
                && userMessage == "" && isLoading && inFlight == request
    {
      if Trim(userMessage) == "" {
        return None;
      }
      var message := userMessage;
      newMessages := chatbotMessages + [Message(User, message)];
      chatbotMessages := newMessages;
      userMessage := "";
      isLoading := true;
      if IsFeedback(message) {
        request := Some(FeedbackPost(message, userId));
      } else {
        request := Some(CompletionPost(Prompt(knowledgeBase, message)));
      }
      inFlight := request;
    }

    /** The feedback post settles: the thank-you or the apology is appended
        to the history as it is now, and loading ends. */
    method ResolveFeedback(outcome: FeedbackOutcome)
      requires Valid() && inFlight.Some? && inFlight.value.FeedbackPost?
      modifies this
      ensures Valid() && !isLoading
      ensures chatbotMessages == old(chatbotMessages) + [Message(Chatbot, FeedbackReply(outcome))]
      ensures userMessage == old(userMessage) && knowledgeBase == old(knowledgeBase)
    {
      if outcome == Saved {
        chatbotMessages := chatbotMessages + [Message(Chatbot, ThankYou)];
      } else {
        chatbotMessages := chatbotMessages + [Message(Chatbot, Apology)];
      }
      isLoading := false;
      inFlight := None;
    }

    /** The completion post settles: the answer, or a fallback, is appended
        to the history the turn extended, and loading ends. */
    method ResolveCompletion(outcome: CompletionOutcome)
      requires Valid() && inFlight.Some? && inFlight.value.CompletionPost?
      modifies this
      ensures Valid() && !isLoading
      ensures chatbotMessages == old(chatbotMessages) + [Message(Chatbot, CompletionReply(outcome))]
      ensures userMessage == old(userMessage) && knowledgeBase == old(knowledgeBase)
    {
      match outcome {
        case Responded(text) =>
          var botResponse := if text.Some? && text.value != "" then text.value else NoResponse;
          chatbotMessages := newMessages + [Message(Chatbot, botResponse)];
        case RequestFailed =>
          chatbotMessages := newMessages + [Message(Chatbot, Sorry)];
      }
      isLoading := false;
      inFlight := None;
    }

    /** A whole turn of `handleSendMessage`, from the click to the settled
        request: the history becomes `TurnHistory` of the old one. */
    method HandleSendMessage(userId: Option<int>, network: Network) returns (request: Option<Request>)
      requires Valid() && !isLoading
      modifies this
      ensures Valid() && !isLoading && knowledgeBase == old(knowledgeBase)
      ensures request == (if IsBlankInput(old(userMessage)) then None
                          else Some(Dispatch(old(userMessage), old(knowledgeBase), userId)))
      ensures chatbotMessages == TurnHistory(old(chatbotMessages), old(userMessage), knowledgeBase, userId, network)
      ensures userMessage == (if IsBlankInput(old(userMessage)) then old(userMessage) else "")
    {
      request := SendMessage(userId);
      if request.Some? {
        match request.value
        case FeedbackPost(_, _) => ResolveFeedback(network.feedback);
        case CompletionPost(_) => ResolveCompletion(network.completion);
      }
    }
  }
}
