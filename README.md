# Chess Q&A Bot — a verified model of its conversation logic

Chess_Bot is a Streamlit chat page (`bot.py`) that answers chess questions
through a language model. This project models, in Dafny, everything the page
decides for itself before and after it calls the model:

- **The topic guardrail**, `ChessGuardrails.is_chess_related`. Three stages run
  in order and the first hit accepts the message:
  - greeting, introduction and farewell patterns on the lower-cased text;
  - 42 keywords, matched as substrings of the lower-cased text;
  - chess notation (a square, a piece move, castling) on the text as typed.
- **Personalisation**, `PersonalizationHelper`:
  - `extract_name` tries three name patterns in order and skips a capture
    that is an excluded word;
  - `is_greeting` checks for a bare greeting;
  - `get_greeting_response` builds the canned greeting reply.
- **The answer step**, `generate_response`. A completion is stripped. An
  exception is turned into one of three fixed-form replies and never escapes.
- **The session**: the transcript, the remembered name and the question
  counter. The model covers how `main` handles one submitted message, the
  "Clear Chat History" reset, and the text export
  (`export_conversation_history`).

Each regular expression appears twice. A ghost predicate states what it means
for the expression to match: there exist positions such that ... An
executable scan tries the alternatives and the start positions in the order
Python's `re.search` does. The scan's contract ties the two together, and the
lemmas are stated against the meaning.

Files and modules:

| file | module | covers |
|---|---|---|
| `text.dfy` | `Text` | ASCII case mapping, Python whitespace, `strip()`, substring search, decimal printing |
| `guardrails.dfy` | `Guardrails` | the guardrail |
| `guardrail_facts.dfy` | `GuardrailFacts` | what the guardrail always and never accepts, and particular messages |
| `personalization.dfy` | `Personalization`, `PersonalizationFacts` | name extraction and greetings, and their properties |
| `responder.dfy` | `Responder`, `ResponderFacts` | the answer step and its error classification |
| `session.dfy` | `Session` | `Step` (one turn as a function on states), `ChatSession` (the session object with in-place updates), the export loop |
| `session_facts.dfy` | `SessionFacts` | properties of one turn, of many turns, of the reset state and of the export |

How the session is modelled:

- `Session.Step(st, input, outcome)` specifies one run of `main` with `input`
  in the chat box.
- `outcome` stands for what the language model would do if called: complete
  with some text, or raise an exception with some description.
- `Session.Run` folds `Step` over a sequence of turns.
- The session object `Session.ChatSession` updates its fields in place.
  `HandleTurn` is proved to produce exactly `Step` of the old state, and to
  keep the transcript well formed.
- `Export` is proved to produce `ExportText` of the current state, using a
  loop that appends one numbered block per message.

Two behaviours of the code are easy to misread, and the model states them as
the code has them:

- **A failed model call is still counted.** `generate_response` catches every
  exception (bot.py:384-392) and returns a reply string. `main`'s answer
  branch then increments the counter whatever that string is (bot.py:500).
  `SessionFacts.FailureStillCounted` states this.
- **"My name is Alice" passes the guardrail.** The introduction pattern at
  bot.py:59 is not anchored, so it matches this message. The message is
  accepted and goes to the model, and the name is stored.
  `GuardrailFacts.MyNameIsAliceAccepted` and `SessionFacts.AliceIntroduces`
  state this.

Emoji in the source text. In `bot.py` as stored, the emoji and the bullet
character appear mis-decoded: UTF-8 bytes read as Mac Roman, such as `üö´`.
The model uses the characters these bytes encode:

| character | code point(s) |
|---|---|
| 👋 | U+1F44B |
| 🚫 | U+1F6AB |
| 🔑 | U+1F511 |
| ⏱️ | U+23F1 U+FE0F |
| ⚠️ | U+26A0 U+FE0F |
| • | U+2022 |

The source file's CRLF line ends are read as `\n`, as Python reads them.

## Model

| member | source | states |
|---|---|---|
| Text.Strip | bot.py:382 | `str.strip()`: the result neither starts nor ends with whitespace, and it is the input with only whitespace removed from its two ends |
| Text.TrimmingIsStrip | bot.py:125 | `strip()` has one answer: a text without whitespace at either end that is the input with only whitespace around it is what `strip()` returns |
| Text.LowerMeaning | bot.py:54 | `lower()` keeps the length, leaves no upper-case letter, turns each upper-case letter into its lower-case partner and keeps every other character; lowering twice is lowering once |
| Text.OccursFrom | bot.py:69 | the left-to-right scan behind `keyword in text_lower` finds the word exactly when it occurs at some position |
| Text.NatToString | bot.py:250 | `str()` of a count: a non-empty run of decimal digits with no leading zero |
| Text.DecimalRoundTrip | bot.py:250 | the decimal text printed for a message number reads back as that number |
| Guardrails.StartsWithAny | bot.py:58 | an anchored alternation `^(a\|b\|…)` matches exactly when one alternative is a prefix of the text |
| Guardrails.MatchPhraseAt | bot.py:59 | trying the introduction phrases in order at one position: a result is a phrase, whitespace and a letter; no result means no phrase matches there |
| Guardrails.FirstIntro | bot.py:59 | `re.search` for the introduction pattern: returns the leftmost match position; no result means no match anywhere |
| Guardrails.AnyGreetingOrIntro | bot.py:56-65 | stage 1 accepts exactly when the greeting, introduction or farewell pattern matches the lower-cased text |
| Guardrails.AnyKeyword | bot.py:67-70 | stage 2 accepts exactly when some keyword occurs somewhere in the lower-cased text |
| Guardrails.SearchNotation | bot.py:73-81 | `re.search` for one notation pattern: true exactly when it matches at some position |
| Guardrails.AnyNotation | bot.py:72-81 | stage 3 accepts exactly when a square, a piece move or castling matches the text as typed |
| Guardrails.IsChessRelated | bot.py:52-83 | accepted if and only if stage 1 or stage 2 matches the lower-cased text, or stage 3 matches the text as typed |
| GuardrailFacts.KeywordAccepted | bot.py:67-70 | a message containing any keyword, in any letter case, is accepted |
| GuardrailFacts.GreetingPrefixAccepted | bot.py:58 | a message opening with a greeting is accepted, whatever follows |
| GuardrailFacts.ClosingPrefixAccepted | bot.py:60 | a message opening with a thank-you or farewell is accepted |
| GuardrailFacts.IntroAccepted | bot.py:59 | an introduction phrase followed by whitespace and a letter, anywhere in the message, is accepted |
| GuardrailFacts.NotationAccepted | bot.py:73-81 | a square, piece move or castling, as typed, is accepted |
| GuardrailFacts.CaseMattersOnlyForNotation | bot.py:54 | two messages equal up to letter case get the same verdict unless notation decides |
| GuardrailFacts.NoLettersRejected | bot.py:52-83 | a message without ASCII letters is rejected, because every pattern and keyword needs one |
| GuardrailFacts.MyNameIsAliceAccepted | bot.py:59 | "My name is Alice" passes the guardrail through the unanchored introduction pattern |
| GuardrailFacts.CapitalOfFranceAccepted | bot.py:47 | "What is the capital of France?" passes because the keyword "tal" occurs inside "capital" |
| GuardrailFacts.SquareQuestionAccepted | bot.py:74 | "Is e4 best?" passes on the square `e4` |
| GuardrailFacts.EmptyRejected | bot.py:52-83 | the empty message is rejected |
| Personalization.IntroCapture | bot.py:108 | pattern 1 gives a capture exactly when it matches somewhere, and the capture is a run of letters |
| Personalization.IntroCaptureIsLeftmostWord | bot.py:108 | the capture is the whole word after the leftmost introduction (`WordAt` of its word start), as `re.search` picks it |
| Personalization.SelfIntroAfter | bot.py:109 | `\s+(?:i am\|i'm)\s+` followed by a letter, from a given index: a result is such a match; none means there is none |
| Personalization.AfterGreeting | bot.py:109 | after a leading greeting, the optional comma is tried first, then the match without it; none means neither matches |
| Personalization.GreetIntroFrom | bot.py:109 | the greetings are tried in order; none means pattern 2 matches with no greeting |
| Personalization.GreetIntroCapture | bot.py:109 | pattern 2 gives a capture exactly when it matches, and the capture is a run of letters |
| Personalization.GreetIntroCaptureIsWordAfterIntro | bot.py:109 | the capture is the whole word that starts where a match of pattern 2 puts its group |
| Personalization.NameHereCapture | bot.py:110 | pattern 3 gives a capture exactly when it matches, and the capture is a run of letters at the start of the text |
| Personalization.NameHereCaptureIsLeadingWord | bot.py:110 | the capture is the whole leading word: for every way pattern 3 matches, the capture is the text before the whitespace that precedes "here" |
| Personalization.FirstAdmitted | bot.py:113-120 | the first capture that is not an excluded word, capitalised; none exactly when every capture is missing or excluded |
| Personalization.CapitalizedWordIsProperName | bot.py:118 | `capitalize()` of a captured word is an upper-case letter followed by lower-case letters |
| Personalization.NameCaptures | bot.py:107-114 | the three patterns' captures on the lower-cased text, each a run of letters |
| Personalization.ExtractName | bot.py:104-120 | a returned name is one capital letter followed by lower-case letters, and is not an excluded word |
| Personalization.GreetingResponse | bot.py:134-139 | with a stored name, the reply greets the user by that name; without one, the fixed anonymous greeting |
| PersonalizationFacts.IntroWordUnique | bot.py:108 | at a given position the introduction pattern can match in only one way |
| PersonalizationFacts.GreetIntroSubsumed | bot.py:108-109 | whenever pattern 2 matches, pattern 1 matches at the same introduction and captures the same word |
| PersonalizationFacts.SelfIntroIsLeftmostIntro | bot.py:108-109 | the introduction inside a pattern-2 match is the leftmost pattern-1 match |
| PersonalizationFacts.ExtractNameSkipsSecondPattern | bot.py:107-120 | `extract_name` gives the same result as with only patterns 1 and 3, so pattern 2 never decides |
| PersonalizationFacts.NameFromLeftmostIntro | bot.py:113-119 | when the leftmost introduction captures an admissible word, that word, capitalised, is the name |
| PersonalizationFacts.NameAfterExcludedIntro | bot.py:113-120 | when the leftmost introduction captures an excluded word, only pattern 3 can still give a name |
| PersonalizationFacts.NameFromLeadingWord | bot.py:110-119 | with no introduction anywhere, an admissible whole leading word before whitespace and "here" is the name, capitalised |
| PersonalizationFacts.ExtractNameMagnus | bot.py:104-120 | "I'm Magnus" gives "Magnus" |
| PersonalizationFacts.ExtractNameAlice | bot.py:104-120 | "My name is Alice" gives "Alice" |
| PersonalizationFacts.ExtractNameLearningChess | bot.py:117-120 | "I'm learning chess" gives no name, because "learning" is excluded |
| PersonalizationFacts.ExtractNameLeftmostOnly | bot.py:114 | "I'm learning, my name is Bob" gives no name: only the leftmost introduction is looked at |
| PersonalizationFacts.ExtractNameFallsThrough | bot.py:113-119 | "Bob here, I'm learning" gives "Bob": an excluded capture falls through to the next pattern |
| PersonalizationFacts.ExtractNameQuestion | bot.py:104-120 | "what is a fork" gives no name |
| PersonalizationFacts.GreetingIgnoresCaseAndPadding | bot.py:125-131 | a bare greeting is recognised in any letter case and with any surrounding whitespace |
| PersonalizationFacts.GreetingMeaning | bot.py:123-131 | `is_greeting` holds exactly when the lower-cased text is one of the ten bare greetings with nothing but whitespace around it |
| PersonalizationFacts.GreetingWithMoreWordsIsNot | bot.py:131 | a greeting followed by whitespace and more text is not a bare greeting |
| PersonalizationFacts.GreetingNotExtendedByWord | bot.py:126-130 | no bare greeting is another one followed by whitespace |
| PersonalizationFacts.GreetingHello | bot.py:123-131 | "Hello" is a bare greeting |
| PersonalizationFacts.GreetingPaddedGoodMorning | bot.py:123-131 | "  Good Morning \n" is a bare greeting |
| PersonalizationFacts.GreetingHiThereIsNot | bot.py:123-131 | "hi there" is not a bare greeting |
| Responder.ClassifyError | bot.py:385-391 | an authentication failure exactly when the lower-cased description mentions "api key" or "unauthorized"; a rate limit exactly when it mentions neither but mentions "rate limit"; otherwise unclassified |
| Responder.ErrorReply | bot.py:387-392 | the fixed authentication reply, the fixed rate-limit reply, or the error prefix followed by the description unchanged |
| Responder.GenerateResponse | bot.py:364-392 | a completion is returned with only its surrounding whitespace removed; an exception becomes its error reply |
| ResponderFacts.ClassifyIgnoresCase | bot.py:385 | the classification does not depend on letter case |
| ResponderFacts.AuthenticationTakesPrecedence | bot.py:387-390 | a description mentioning both an API key and a rate limit is an authentication failure |
| ResponderFacts.ErrorRepliesDistinct | bot.py:387-392 | different classifications give different replies |
| ResponderFacts.UnclassifiedKeepsDescription | bot.py:391-392 | an unclassified description is shown after the prefix, exactly as raised |
| ResponderFacts.UnauthorizedExample | bot.py:387-388 | "401 Unauthorized" is an authentication failure |
| ResponderFacts.RateLimitExample | bot.py:389-390 | "Rate limit reached" is a rate-limit failure |
| Session.RememberName | bot.py:456-460 | a stored name is kept; otherwise an extracted name replaces it; a newly stored name is a proper name that is not excluded |
| Session.Dispatch | bot.py:462-487 | the greeting branch exactly for bare greetings; otherwise the rejection branch exactly when the guardrail refuses; otherwise the answer branch |
| Session.Submitted | bot.py:445 | the number of submitted messages is at most the number of turns |
| Session.Answered | bot.py:487-500 | the number of messages sent to the model is at most the number submitted |
| Session.Rule | bot.py:243 | the separator is sixty '=' characters |
| Session.RoleTagIsUpperRoleName | bot.py:248 | the role printed in the export is the stored role upper-cased |
| Session.AppendedGrows | bot.py:451-497 | a turn adds two messages, the user's and then the reply, and keeps all earlier ones |
| Session.AppendedKeepsWellFormed | bot.py:451-497 | appending a user message and a reply keeps the transcript's shape |
| Session.StepKeepsWellFormed | bot.py:445-500 | the welcome message first, then alternating user and assistant messages, with at most one counted question per pair, is kept by every turn |
| Session.TurnIsStep | bot.py:445-500 | the name, reply and count a turn computes, put together, are the specified step |
| Session.LearnName | bot.py:456-460 | the name lookup at the top of a turn computes the remembered name |
| Session.Respond | bot.py:462-500 | the branch code computes the reply of the message's branch, and counts it exactly on the answer branch |
| Session.Turn | bot.py:445-500 | one run of `main`: an empty chat box leaves the state as it is; otherwise the name lookup, the branch and the appended pair give exactly the specified step, and the transcript keeps its shape |
| Session.BlockOfUpperRole | bot.py:247-250 | the block built in the loop is the export's block for that message |
| Session.BlocksPrefixStep | bot.py:247-250 | the blocks of one more message extend the earlier blocks by that message's block |
| Session.ExportLoopStep | bot.py:247-250 | each round of the export loop extends the text by the next message's numbered block |
| Session.AppendBlocks | bot.py:247-252 | the export loop returns the header followed by every message's block, numbered from 1, in order |
| Session.ChatSession.constructor | bot.py:208-230 | a new session holds only the welcome message, no name, zero questions and the given start time |
| Session.ChatSession.Reset | bot.py:348-354 | "Clear Chat History" restores the initial state |
| Session.ChatSession.HandleTurn | bot.py:445-500 | one submitted message changes the session exactly as the step specifies, and keeps it well formed |
| Session.ChatSession.Export | bot.py:232-252 | the export is the header for the session followed by every message's numbered block |
| SessionFacts.EmptyInputIgnored | bot.py:445 | an empty chat box changes nothing |
| SessionFacts.StepAppendsPair | bot.py:451-497 | a submitted message appends itself and one assistant reply, keeping all earlier messages |
| SessionFacts.StepReply | bot.py:462-497 | the reply is the greeting (using the possibly just learned name), the rejection text, or the model's answer, by branch |
| SessionFacts.StepCounter | bot.py:487-500 | the counter goes up by one exactly for a submitted message that is neither a bare greeting nor refused |
| SessionFacts.FailureStillCounted | bot.py:384-392 | a failed model call is still counted, and its reply is the error text |
| SessionFacts.OutcomeIgnoredByNameAndCounter | bot.py:456-500 | what the model does never affects the stored name or the counter |
| SessionFacts.OutcomeIgnoredUnlessAnswered | bot.py:462-486 | on a greeting or rejection, what the model would do affects nothing |
| SessionFacts.StepGrows | bot.py:445-497 | one turn adds two messages when a message was submitted and none otherwise, and loses nothing |
| SessionFacts.RunGrows | bot.py:445-497 | over many turns the transcript only grows, by two messages per submitted message |
| SessionFacts.RunCounter | bot.py:500 | over many turns the counter grows by exactly the number of messages sent to the model |
| SessionFacts.RunKeepsName | bot.py:457 | a stored name is never replaced |
| SessionFacts.RunKeepsWellFormed | bot.py:445-500 | every reachable transcript keeps its shape |
| SessionFacts.RunIgnoresOutcomes | bot.py:456-500 | runs over the same messages end with the same name and count, whatever the model did |
| SessionFacts.InitialState | bot.py:349-354 | the reset state is well formed: one welcome message, no name, no questions |
| SessionFacts.LongTextIsNotGreeting | bot.py:125-131 | a message longer than fourteen characters after stripping is not a bare greeting |
| SessionFacts.AliceNotGreeting | bot.py:463 | "My name is Alice" is not a bare greeting |
| SessionFacts.IntroducedAndAnswered | bot.py:456-500 | a first introduction that passes the guardrail stores the name and is counted as a question |
| SessionFacts.AliceIntroduces | bot.py:456-491 | a first "My name is Alice" stores "Alice" and goes to the model |
| SessionFacts.KnownNameGreeted | bot.py:463-472 | a bare greeting once a name is known is greeted by that name and not counted |
| SessionFacts.BlocksConcat | bot.py:247-250 | the blocks of two transcripts laid end to end are numbered on from the first |
| SessionFacts.BlocksSplit | bot.py:247-250 | message `i` is printed as block `i + 1`, between the blocks before it and after it |
| SessionFacts.BlocksCons | bot.py:247-250 | the first message of a transcript is printed first, and the rest are numbered on |
| SessionFacts.BlocksOfPair | bot.py:247-250 | a pair of messages is printed as two consecutively numbered blocks |
| SessionFacts.BlocksAfterPair | bot.py:247-250 | after a turn, the export keeps every earlier block and adds two, numbered on |
| SessionFacts.BlockNumberReadsBack | bot.py:250 | a block starts with the message's number in decimal, then '.' |
| SessionFacts.ExportHeaderShowsUserAndCount | bot.py:236-245 | the header has the line "# User: " with the stored name, or "Anonymous" while none is known, and the line "# Total Questions: " with the counter in decimal |
| SessionFacts.ExportOfInitial | bot.py:232-252 | a fresh or just-reset session exports the header and the welcome message as block 1 |
| SessionFacts.OneBlock | bot.py:247-250 | a one-message transcript is printed as that message's single block |
| SessionFacts.FirstAssistantBlock | bot.py:248-250 | an assistant message numbered 1 is printed under "1. [ASSISTANT]" |

## Left out

- IntroCapture: its own contract says only when pattern 1 matches and that the capture is a word. Which word it is (the whole word after the leftmost introduction) is stated by `Personalization.IntroCaptureIsLeftmostWord`. The two are kept apart so that the proofs about `ExtractName` stay small.
- GreetIntroCapture: its own contract says only when pattern 2 matches and that the capture is a word. Which word it is is stated by `Personalization.GreetIntroCaptureIsWordAfterIntro`, for the same reason.
- NameHereCapture: its own contract says only when pattern 3 matches and that the capture is a word at the start of the text. That it is the whole leading word is stated by `Personalization.NameHereCaptureIsLeadingWord`, for the same reason.
- The Streamlit page is not modelled. This covers page configuration, CSS, the
  message display, the spinner, the sidebar statistics and previews, success
  messages and `st.rerun`. The model keeps only the state the page changes.
- The download button's condition (more than one message, bot.py:335) is not
  modelled. `Export` can be called on any session.
- The language model call, the prompt built by `create_chess_prompt`, LangChain
  and its conversation memory are not modelled. What the call would do is the
  parameter `outcome`: completed text, or the description of a raised exception.
- The memory's `clear()` on reset (bot.py:355) is not modelled, because the
  memory is library state outside the model.
- `load_dotenv`, the API-key check and `initialize_langchain` are not modelled,
  because they are configuration and library set-up.
- The session start time and the export time come from the clock. They are
  parameters (`startTime`, `exportTime`), passed as already formatted text.
- Lower- and upper-casing are modelled on ASCII letters only. Python's
  `lower()`/`upper()` also map non-ASCII letters, some of them to more than one
  character.
- The word class behind `\b` is modelled on ASCII only. Python also counts
  non-ASCII letters and digits as word characters.
- `Session.ChatSession.HandleTurn` computes the turn with `Session.Turn` and
  then stores the new transcript, name and count in the session. bot.py
  appends the user message first, stores a newly found name (bot.py:460),
  and appends the reply inside each branch. The branch code reads the stored
  name back (bot.py:464 for the greeting, bot.py:369 for the prompt).
  `Session.Respond` is given the name just learned, so it sees the same name
  and the resulting state is the same.
- `SessionFacts.AliceIntroduces` states that the name is found and the message
  takes the answer branch. The stored state follows by
  `SessionFacts.IntroducedAndAnswered`; the two are stated separately rather
  than as one statement about `Step` on that literal message.
