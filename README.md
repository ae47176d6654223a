# CampusConnect assistant and backend helpers, modelled in Dafny

This project models three pieces of logic of the CampusConnect campus portal
and proves what they promise.

- **The global assistant's turn logic** (`GlobalChatbot`, `chatbot.dfy`):
  - the chat history, the input box, the loading flag and the knowledge base,
    as a class whose methods update those fields;
  - one turn of `handleSendMessage`, split at its `await` into `SendMessage`
    and `ResolveFeedback` or `ResolveCompletion`, and `HandleSendMessage`,
    which runs both phases;
  - the rejection of whitespace-only input (JavaScript `trim`);
  - the case-insensitive test for the word "feedback";
  - the prompt template;
  - the four fixed reply strings;
  - the pure history function `TurnHistory` that the class is proved against,
    and `Conversation`, which iterates it over many turns.
- **Backend helpers of `routes.py`** (`routes.dfy`):
  - `clean_text`, as a method with the source's loop, proved against the
    recursive specification `Entries`;
  - the stored text name, the pathlib stem and the displayed original name;
  - the combined corpus that `get_combined_documents` builds in a loop;
  - the token expiry default of `create_access_token`;
  - the guard chains and status codes of `login`, `get_document`,
    `delete_user` and `delete_feedback`.
- **Sentiment aggregation** (`sentiment.dfy`):
  - the sign rule that labels a polarity;
  - `analyze_feedback_batch` as a method with the source's loop:
    - per-item results in input order;
    - counts kept in a map that the loop updates in place;
    - exact means and percentages;
    - the empty-batch result.

Two modules are shared. `text.dfy` holds the Python and JavaScript string
primitives the code relies on, with their round trips:
- `str.split` on one character;
- `str.join`;
- `rfind`;
- substring search;
- `"".join`.

`wrappers.dfy` holds `Option`, which stands for `None` and `undefined`.

The following are parameters, not modelled computations:
- the network outcomes, as `FeedbackOutcome`, `CompletionOutcome` and `CorpusResponse`;
- the current user id;
- the clock, as `now` in microseconds;
- the database tables, as sequences of rows;
- the stored text files, as a sequence or a map;
- bcrypt verification, as a function `verify`;
- TextBlob's scores, as a function `blob` from text to `Score`.

Two facts about the code shape the model:
- **No single-flight guard.** `handleSendMessage` checks only for blank input
  (GlobalChatbot.jsx:59) and never checks `isLoading`. The Send button is
  disabled while loading, but the Enter key calls the handler anyway
  (GlobalChatbot.jsx:134-139, 401). The model does not prove that a second
  send is rejected. It makes "not loading" a precondition of `SendMessage`
  and `HandleSendMessage`.
- **The prompt carries no history.** The prompt holds only the knowledge base
  and the current message (GlobalChatbot.jsx:110); earlier turns are shown
  but never sent.

## Model

| member | source | states |
|---|---|---|
| Text.Split | backend/app/routes.py:81 | `s.split(sep)` yields one piece more than there are separators, and no piece contains the separator |
| Text.JoinSplit | backend/app/routes.py:261 | joining the pieces of a split with the same separator gives back the string |
| Text.SplitAtFirst | backend/app/routes.py:261 | splitting at the first separator yields the part before it, then the split of the rest |
| Text.SplitJoin | backend/app/routes.py:261 | splitting a join gives back the pieces when none contains the separator |
| Text.LastIndexOf | backend/app/routes.py:158 | the result is the index of the last occurrence, and -1 exactly when there is none |
| Text.ContainsOccurs | frontend/src/components/GlobalChatbot.jsx:68 | the substring test holds exactly when the pattern occurs at some index |
| Text.ConcatAppend | backend/app/routes.py:296-299 | concatenating two runs of parts is concatenating their concatenations |
| Chatbot.BlankInputIffAllSpace | frontend/src/components/GlobalChatbot.jsx:59 | an input is rejected exactly when every character is JavaScript whitespace, the empty input included |
| Chatbot.Trim | frontend/src/components/GlobalChatbot.jsx:59 | `trim()` drops the leading and trailing JavaScript whitespace and keeps the rest |
| Chatbot.IsBlankInput | frontend/src/components/GlobalChatbot.jsx:59 | an input is blank when its trimmed text is empty |
| Chatbot.LowerChar | frontend/src/components/GlobalChatbot.jsx:68 | an ASCII capital lowers to the matching small letter, KELVIN SIGN to 'k', and every other character is kept; so a character lowers to an ASCII small letter exactly when it is one already, an ASCII capital, or KELVIN SIGN |
| Chatbot.WordCases | frontend/src/components/GlobalChatbot.jsx:68 | a word lower-cases to "feedback" exactly when it has eight characters, each the small or capital letter of "feedback" at that place, with KELVIN SIGN also allowed for the final 'k' |
| Chatbot.ToLower | frontend/src/components/GlobalChatbot.jsx:68 | the model lowers character by character with `LowerChar`, so the result has the input's length; JavaScript's result is longer only for U+0130, whose two-character lowering contains no letter of "feedback" |
| Chatbot.IsFeedback | frontend/src/components/GlobalChatbot.jsx:68 | a message is feedback when its lower-cased text contains "feedback" |
| Chatbot.FeedbackWordAnywhere | frontend/src/components/GlobalChatbot.jsx:68 | a message containing "feedback" in any mix of cases, anywhere, takes the feedback path |
| Chatbot.FeedbackHasWord | frontend/src/components/GlobalChatbot.jsx:68 | conversely, a message takes the feedback path only if eight consecutive characters of it lower-case to "feedback" |
| Chatbot.NoLetterFNotFeedback | frontend/src/components/GlobalChatbot.jsx:68 | a message with no character that lower-cases to 'f' goes to the completion service |
| Chatbot.ExamQuestionNotFeedback | frontend/src/components/GlobalChatbot.jsx:68 | "The exam schedule please" is not feedback |
| Chatbot.FeedbackIgnoresCase | frontend/src/components/GlobalChatbot.jsx:68 | lower-casing a message first does not change its classification |
| Chatbot.Prompt | frontend/src/components/GlobalChatbot.jsx:110 | the prompt is the 16-character label, the knowledge base, the 14-character query label and the message as typed, at fixed offsets |
| Chatbot.PromptDeterminesQuery | frontend/src/components/GlobalChatbot.jsx:110 | for a fixed knowledge base, the prompt determines the user's message |
| Chatbot.BotResponse | frontend/src/components/GlobalChatbot.jsx:118-119 | a present, non-empty answer text is the reply; a missing or empty one gives "No response received."; the reply is never empty |
| Chatbot.Dispatch | frontend/src/components/GlobalChatbot.jsx:68-110 | a message goes to the feedback service iff it is feedback, as typed and with the user id; otherwise the completion service gets the prompt |
| Chatbot.FeedbackReply | frontend/src/components/GlobalChatbot.jsx:84-97 | a saved feedback gives exactly the thank-you string, a failed one exactly the apology |
| Chatbot.CompletionReply | frontend/src/components/GlobalChatbot.jsx:118-128 | a failed request gives the "Sorry" string; an answer gives `BotResponse` of its text; never empty |
| Chatbot.TurnHistory | frontend/src/components/GlobalChatbot.jsx:58-132 | the history after one turn: unchanged for blank input, otherwise the old history, the user's message and the reply of the path `Dispatch` chose |
| Chatbot.TurnAppendsMessageThenReply | frontend/src/components/GlobalChatbot.jsx:61-128 | a non-blank turn keeps the old history, appends the user's message as typed, then one chatbot reply from the allowed set for its path |
| Chatbot.ConversationAppendOnly | frontend/src/components/GlobalChatbot.jsx:58-132 | over any sequence of turns the history keeps its prefix, grows by two per sent message, and the new entries come in user/chatbot pairs |
| Chatbot.GlobalChatbot.constructor | frontend/src/components/GlobalChatbot.jsx:26-29 | the component starts with no history, an empty input, not loading, and an empty knowledge base |
| Chatbot.GlobalChatbot.FetchKnowledgeBase | frontend/src/components/GlobalChatbot.jsx:37-48 | a successful fetch stores the corpus; a failed one keeps the old knowledge base |
| Chatbot.GlobalChatbot.SetUserMessage | frontend/src/components/GlobalChatbot.jsx:388 | typing replaces the input text |
| Chatbot.GlobalChatbot.SendMessage | frontend/src/components/GlobalChatbot.jsx:59-110 | blank input changes nothing; otherwise the user's message is appended before any request, the input is cleared, loading starts and the request is `Dispatch` of the message |
| Chatbot.GlobalChatbot.ResolveFeedback | frontend/src/components/GlobalChatbot.jsx:84-97 | the feedback reply is appended to the current history and loading ends |
| Chatbot.GlobalChatbot.ResolveCompletion | frontend/src/components/GlobalChatbot.jsx:118-131 | the completion reply is appended to the history the turn extended and loading ends |
| Chatbot.GlobalChatbot.HandleSendMessage | frontend/src/components/GlobalChatbot.jsx:58-132 | a whole turn leaves the history equal to `TurnHistory` of the old one, loading false, the knowledge base unchanged, and the input cleared iff the message was sent |
| Routes.StripStartRemovesLeadingSpace | backend/app/routes.py:98 | `lstrip` removes exactly the leading Python whitespace and keeps a suffix that does not start with whitespace |
| Routes.StripEndRemovesTrailingSpace | backend/app/routes.py:98 | `rstrip` removes exactly the trailing Python whitespace and keeps a prefix that does not end with whitespace |
| Routes.StripEmptyIffBlank | backend/app/routes.py:89 | `not line.strip()` holds exactly for whitespace-only lines |
| Routes.Entries | backend/app/routes.py:81-107 | the entries `clean_text` collects, in line order: one per maximal run of non-blank lines (stripped, joined by single spaces) and one empty entry per blank line |
| Routes.CleanedText | backend/app/routes.py:81-107 | the cleaned text is the entries joined by a blank line |
| Routes.CleanText | backend/app/routes.py:76-107 | the loop's result is the `"\n\n"`-join of `Entries` of the lines |
| Routes.EntriesOfRun | backend/app/routes.py:87-104 | a run of non-blank lines becomes one entry: the stripped lines joined by single spaces, in input order |
| Routes.EntriesAtBlank | backend/app/routes.py:89-95 | a blank line flushes the pending paragraph, contributes exactly one empty entry, and what follows is cleaned independently |
| Routes.EmptyEntriesAreBlankLines | backend/app/routes.py:89-95 | the number of empty entries equals the number of blank lines |
| Routes.CleanedEmptyText | backend/app/routes.py:81-107 | `clean_text("")` is `""` |
| Routes.BaseName | backend/app/routes.py:158 | `rsplit('.', 1)[0]` keeps a name without a dot whole, and otherwise cuts it at its last dot |
| Routes.TextFilename | backend/app/routes.py:158 | the stored text name is the timestamp, an underscore, the base name of the upload and `.txt` |
| Routes.PathStem | backend/app/routes.py:261 | the stem is a prefix of the name; it is shorter exactly when the last dot is neither the first nor the last character, and then it is the name before that dot |
| Routes.StemOfTextFilename | backend/app/routes.py:158-263 | the stem of the stored text file is the timestamp, an underscore and the uploaded name up to its last dot |
| Routes.OriginalName | backend/app/routes.py:261 | the listed name is the stem's `_`-separated segments after the first, rejoined by `_` |
| Routes.OriginalNameDropsFirstSegment | backend/app/routes.py:261 | the displayed name drops exactly the first underscore-separated segment |
| Routes.OriginalNameWithoutUnderscore | backend/app/routes.py:261 | a stem without an underscore is displayed as the empty name |
| Routes.TimestampSegments | backend/app/routes.py:116 | a timestamp is a date and a time joined by its only underscore |
| Routes.DisplayedNameKeepsTime | backend/app/routes.py:261 | for every upload, the displayed name still starts with the six-digit time and an underscore |
| Routes.DisplayedNameExample | backend/app/routes.py:261 | "notes.pdf" uploaded at 20240101_120000 is listed as "120000_notes" |
| Routes.DisplayNameDropsTwoSegments | backend/app/routes.py:261 | the corrected display name drops exactly the date and time segments |
| Routes.DisplayNameRoundTrip | backend/app/routes.py:261 | the corrected display name of a stored text is the uploaded name without its extension |
| Routes.GetCombinedDocuments | backend/app/routes.py:292-305 | when every file reads, the answer is `Corpus` of the files in glob order; otherwise 500 |
| Routes.Section | backend/app/routes.py:299 | one document's section: a blank line, the delimiter `--- Document: <stem> ---`, a blank line, the content and a newline |
| Routes.Corpus | backend/app/routes.py:295-300 | the corpus is the sections of the files, one after the other in glob order |
| Routes.CorpusAppend | backend/app/routes.py:296-299 | the corpus of two runs of files is the first corpus followed by the second |
| Routes.CorpusAt | backend/app/routes.py:299 | each document appears as its own delimited section, between the corpora of the files before and after it |
| Routes.CorpusEmptyIff | backend/app/routes.py:295-300 | the corpus is empty exactly when there are no documents |
| Routes.GetDocument | backend/app/routes.py:275-290 | the content is returned iff `<id>.txt` exists and reads; a missing file answers 500, not 404 |
| Routes.ExpiresAt | backend/app/routes.py:34-38 | a truthy (non-zero) delta expires at now plus the delta; an absent or zero delta at now plus 15 minutes |
| Routes.CreateAccessToken | backend/app/routes.py:32-40 | the claims carry the given subject and expire at `ExpiresAt`: now plus a truthy delta, otherwise now plus 15 minutes |
| Routes.FindFirst | backend/app/routes.py:74 | `.first()` finds the first matching row, and nothing iff no row matches |
| Routes.Login | backend/app/routes.py:178-206 | success iff the first user with that email exists and the password verifies; every failure answers 500; the token is for that email, expires 30 minutes after `now`, is of type "bearer", and the user fields are the matched row's |
| Routes.RemoveAt | backend/app/routes.py:395 | deleting a row keeps every other row in order |
| Routes.DeleteUser | backend/app/routes.py:369-397 | 403 iff the caller is not an admin, before any lookup; then 404 iff no such user; then 400 iff it is the caller; otherwise the first row with that id is removed; errors leave the table unchanged |
| Routes.DeleteFeedback | backend/app/routes.py:420-439 | 403 iff not an admin; then 404 iff no such feedback; then 500 iff the commit fails, with the table rolled back; otherwise the first row with that id is removed |
| Sentiment.OverallSentiment | backend/app/utils/sentiment.py:25-31 | "positive" iff the polarity is positive, "negative" iff negative, "neutral" iff zero |
| Sentiment.NameInjective | backend/app/utils/sentiment.py:50-54 | the three labels are reported as three different strings |
| Sentiment.AnalyzeSentiment | backend/app/utils/sentiment.py:14-37 | the analysis carries TextBlob's two scores and the label of its polarity |
| Sentiment.Counts | backend/app/utils/sentiment.py:68 | the count dictionary has exactly the three label keys |
| Sentiment.CountLabel | backend/app/utils/sentiment.py:78 | the count of a label is the number of items whose analysis carries that label |
| Sentiment.CountsSumToTotal | backend/app/utils/sentiment.py:68-81 | every item is counted under exactly one label, so the three counts sum to the number of items |
| Sentiment.CountsStep | backend/app/utils/sentiment.py:78 | analysing one more item increments the count of its label and no other |
| Sentiment.Individuals | backend/app/utils/sentiment.py:70-75 | one entry per item, in input order, with the item's id and analysis |
| Sentiment.Percentages | backend/app/utils/sentiment.py:86-89 | the percentage dictionary has the same keys as the counts |
| Sentiment.PercentsOfPartition | backend/app/utils/sentiment.py:86-89 | counts that partition a positive total have percentages summing to 100 |
| Sentiment.PercentagesSumTo100 | backend/app/utils/sentiment.py:86-89 | the three percentages of a non-empty batch sum to exactly 100 |
| Sentiment.Mean | backend/app/utils/sentiment.py:82-83 | an average is the sum of the values divided by their number |
| Sentiment.MeanBounded | backend/app/utils/sentiment.py:82-83 | the mean of values within a range lies within that range |
| Sentiment.AnalyzeFeedbackBatch | backend/app/utils/sentiment.py:39-100 | the empty batch gives all zeros and no entries; otherwise the total is the item count, the entries follow input order, the counts equal `CountLabel` per label, both dictionaries have exactly the three keys, each percentage is count / total × 100, and the averages are the exact means |

## Left out

- The network calls themselves are not modelled. This covers the corpus fetch, the feedback post, the completion post, the `localStorage` token and the API key. Their outcomes are inputs.
- Chatbot.GlobalChatbot.FetchKnowledgeBase: a successful response whose JSON lacks `content` would store `undefined`. The model's successful response always carries a string.
- Interleaved turns are not modelled. A second send while one is in flight is excluded by a precondition rather than modelled: the code has no guard, and concurrent updaters and snapshots of `newMessages` could drop a reply.
- Scrolling, the dialog, Markdown rendering (`react-markdown`) and the document-scoped `GeminiChat` component are not modelled. `GeminiChat` is not part of this model.
- Chatbot.LowerChar: only the lower-casing that matters for the ASCII word "feedback" is modelled: ASCII capitals and KELVIN SIGN. Other upper-case letters are left as they are. Most lower to characters outside ASCII. U+0130 lowers to 'i' and U+0307, so JavaScript's result is one character longer; neither character occurs in "feedback", so the classification is the same.
- OCR and file I/O in `upload_file` are not modelled: PDF conversion, pytesseract, PIL and file writes. So are its error statuses and `list_documents`' sort by modification time. Only the name derivations are modelled.
- The database, SQLAlchemy sessions and `get_current_user` are not modelled. The caller is an input, so the 401 for a bad token is not modelled.
- The `create_*` and `get_*` CRUD endpoints are not modelled. That includes `create_feedback`, which stores the authenticated user's id and ignores the `user_id` the client sends.
- Routes.CreateAccessToken: the JWT encoding and signing are not modelled, only the claims.
- Routes.DeleteUser: a failing commit is not modelled. The endpoint has no `try` around it, so it would surface as FastAPI's generic 500.
- Routes.Login and Routes.GetDocument: the `detail` text of the 500 responses, `str(e)`, is not modelled.
- Routes.Login: bcrypt is an input predicate.
- Sentiment.AnalyzeFeedbackBatch: averages and percentages are exact reals, not floats, so float rounding is not modelled. The empty batch's integer zeros are modelled as the reals 0.0.
- Sentiment.AnalyzeSentiment: TextBlob is an input function, not modelled. Its -1..1 and 0..1 ranges are not enforced, and `MeanBounded` states what they would give.
- Sentiment.AnalyzeFeedbackBatch: the source counts with a string-keyed dictionary. The model keys the counts by the `Label` datatype, and `Name` gives each label's string.
- Timestamps are treated as strings of the form that `strftime("%Y%m%d_%H%M%S")` yields for a four-digit year. Clock reading is not modelled.

## Findings

| source | as written | input that shows it | evidently intended | confidence | as-written member | corrected member |
|---|---|---|---|---|---|---|
| backend/app/routes.py:261 | the listed name drops only the first `_`-separated segment of the stem, but the timestamp `%Y%m%d_%H%M%S` itself contains `_` | "notes.pdf" uploaded at 20240101_120000 is stored as `20240101_120000_notes.txt` and listed as "120000_notes" | drop the whole timestamp (two segments) and list "notes" | not executed | Routes.DisplayedNameExample | Routes.DisplayNameRoundTrip |
