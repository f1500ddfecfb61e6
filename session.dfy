/**
 * The chat session: the transcript, the remembered name and the question
 * counter that bot.py keeps in the page's session state, how one submitted
 * message changes them (`main`), the "Clear Chat History" reset and the text
 * export of the transcript.
 *
 * `Step` is the specification of one turn on values; `ChatSession` is the
 * session object, whose methods update its fields in place and are proved
 * to agree with `Step`, with the reset state and with `ExportText`.
 */
module Session {
  import opened Text
  import opened Guardrails
  import opened Personalization
  import opened Responder

  datatype Role = User | Assistant

  datatype Message = Message(role: Role, content: string)

  /** Which of the three replies a message gets. */
  datatype Branch = GreetingBranch | RejectionBranch | AnswerBranch

  datatype State = State(messages: seq<Message>, userName: Option<string>, totalQuestions: nat)

  /** One submitted message and what the language model would do if asked about it. */
  datatype Exchange = Exchange(input: string, outcome: LlmOutcome)

  const GreetingMessage: string :=
    "\U{1F44B} Hello! I'm your Chess Q&A Bot!\n    \n"
    + "Ask me anything about chess - rules, openings, "
    + "strategies, famous players, tournaments, and chess history!"

  const Welcome: Message := Message(Assistant, GreetingMessage)

  /** A fresh session, and the state "Clear Chat History" returns to. */
  const Initial: State := State([Welcome], None, 0)

  /** The shape the transcript always has: the welcome message, then user/assistant pairs,
      and at most one counted question per pair. */
  predicate WellFormed(st: State) {
    && |st.messages| % 2 == 1
    && st.messages[0] == Welcome
    && (forall i :: 1 <= i < |st.messages| ==> st.messages[i].role == (if i % 2 == 1 then User else Assistant))
    && st.totalQuestions <= |st.messages| / 2
  }

  /** The name after a message: only looked for while none is known, and kept once found. */
  function RememberName(stored: Option<string>, input: string): (r: Option<string>)
    ensures Known(stored) ==> r == stored
    ensures !Known(stored) ==> r == (if ExtractName(input).Some? then ExtractName(input) else stored)
    ensures r.Some? && r != stored ==> IsProperName(r.value) && Lower(r.value) !in ExcludedNames
  {
    if Known(stored) then stored
    else
      var name := ExtractName(input);
      if name.Some? then name else stored
  }

  /** The branch a message takes: a bare greeting first, then the guardrail. */
  function Dispatch(input: string): (b: Branch)
    ensures b == GreetingBranch <==> IsGreeting(input)
    ensures b == RejectionBranch <==> !IsGreeting(input) && !IsChessRelated(input)
    ensures b == AnswerBranch <==> !IsGreeting(input) && IsChessRelated(input)
  {
    if IsGreeting(input) then GreetingBranch
    else if !IsChessRelated(input) then RejectionBranch
    else AnswerBranch
  }

  /** The assistant's reply on each branch. */
  function Reply(b: Branch, name: Option<string>, outcome: LlmOutcome): string {
    match b
    case GreetingBranch => GreetingResponse(name)
    case RejectionBranch => RejectionMessage
    case AnswerBranch => GenerateResponse(outcome)
  }

  /** The state after a submitted message: the message and its reply appended, the name
      replaced by `name`, and the counter bumped when the message was `counted`. */
  function Appended(st: State, input: string, reply: string, name: Option<string>, counted: bool): State {
    State(st.messages + [Message(User, input), Message(Assistant, reply)],
          name,
          st.totalQuestions + (if counted then 1 else 0))
  }

  /** One run of `main` with `input` in the chat box; an empty box does nothing. */
  function Step(st: State, input: string, outcome: LlmOutcome): State {
    if input == [] then st
    else
      var name := RememberName(st.userName, input);
      var b := Dispatch(input);
      Appended(st, input, Reply(b, name, outcome), name, b == AnswerBranch)
  }

  /** A sequence of turns. */
  function Run(st: State, turns: seq<Exchange>): State
    decreases |turns|
  {
    if turns == [] then st else Run(Step(st, turns[0].input, turns[0].outcome), turns[1..])
  }

  /** How many of the turns submit a message. */
  function Submitted(turns: seq<Exchange>): (n: nat)
    ensures n <= |turns|
    decreases |turns|
  {
    if turns == [] then 0 else (if turns[0].input != [] then 1 else 0) + Submitted(turns[1..])
  }

  /** How many of the turns submit a message that reaches the language model. */
  function Answered(turns: seq<Exchange>): (n: nat)
    ensures n <= Submitted(turns)
    decreases |turns|
  {
    if turns == [] then 0
    else (if turns[0].input != [] && Dispatch(turns[0].input) == AnswerBranch then 1 else 0) + Answered(turns[1..])
  }

  // ---------------------------------------------------------------------------
  // Export

  /** `user_name or "Anonymous"`. */
  function DisplayName(name: Option<string>): (r: string)
    ensures Known(name) ==> r == name.value
    ensures !Known(name) ==> r == "Anonymous"
  {
    if Known(name) then name.value else "Anonymous"
  }

  /** The separator line, `'=' * 60`. */
  function Rule(): (r: string)
    ensures |r| == 60 && forall k :: 0 <= k < |r| ==> r[k] == '='
  {
    seq(60, _ => '=')
  }

  /** The role as the transcript stores it. */
  function RoleName(role: Role): string {
    match role
    case User => "user"
    case Assistant => "assistant"
  }

  /** The role as the export prints it. */
  function RoleTag(role: Role): string {
    match role
    case User => "USER"
    case Assistant => "ASSISTANT"
  }

  /** The printed tag is the stored role name in upper case. */
  lemma RoleTagIsUpperRoleName(role: Role)
    ensures RoleTag(role) == Upper(RoleName(role))
  {
  }

  /** The export's header, line by line. */
  function ExportHeader(start: string, name: Option<string>, questions: nat, exportTime: string): string {
    ExportTitle(start) + UserLine(name) + CountLine(questions) + TimeLine(exportTime) + Rule() + "\n\n"
  }

  function ExportTitle(start: string): string {
    "\n# Chess Q&A Chatbot - Conversation History\n" + "# Session Started: " + start + "\n"
  }

  function UserLine(name: Option<string>): string {
    "# User: " + DisplayName(name) + "\n"
  }

  function CountLine(questions: nat): string {
    "# Total Questions: " + NatToString(questions) + "\n"
  }

  function TimeLine(exportTime: string): string {
    "# Export Time: " + exportTime + "\n\n"
  }

  /** The block for the message numbered `idx`. */
  function Block(idx: nat, m: Message): string {
    NatToString(idx) + ". [" + RoleTag(m.role) + "]\n" + m.content + "\n\n"
  }

  /** The blocks of `ms`, numbered from `first`. */
  function Blocks(ms: seq<Message>, first: nat): string
    decreases |ms|
  {
    if ms == [] then [] else Block(first, ms[0]) + Blocks(ms[1..], first + 1)
  }

  /** `export_conversation_history`: the header, then every message numbered from 1. */
  function ExportText(st: State, start: string, exportTime: string): string {
    ExportHeader(start, st.userName, st.totalQuestions, exportTime) + Blocks(st.messages, 1)
  }

  /** What appending a turn does to the transcript: two messages more, the old ones kept. */
  lemma AppendedGrows(st: State, input: string, reply: string, name: Option<string>, counted: bool)
    ensures var next := Appended(st, input, reply, name, counted);
            && |next.messages| == |st.messages| + 2
            && next.messages[..|st.messages|] == st.messages
            && next.messages[|st.messages|] == Message(User, input)
            && next.messages[|st.messages| + 1] == Message(Assistant, reply)
  {
    var next := Appended(st, input, reply, name, counted);
    assert next.messages[..|st.messages|] == st.messages;
  }

  /** Appending a user message and an assistant reply keeps the transcript's shape. */
  lemma AppendedKeepsWellFormed(st: State, input: string, reply: string, name: Option<string>, counted: bool)
    requires WellFormed(st)
    ensures WellFormed(Appended(st, input, reply, name, counted))
  {
    var ms := st.messages + [Message(User, input), Message(Assistant, reply)];
    var n := |st.messages|;
    forall i | 1 <= i < |ms|
      ensures ms[i].role == (if i % 2 == 1 then User else Assistant)
    {
      if i < n {
        assert ms[i] == st.messages[i];
      }
    }
  }

  /** A turn keeps the transcript's shape. */
  lemma StepKeepsWellFormed(st: State, input: string, outcome: LlmOutcome)
    requires WellFormed(st)
    ensures WellFormed(Step(st, input, outcome))
  {
    if input != [] {
      var name := RememberName(st.userName, input);
      var b := Dispatch(input);
      AppendedKeepsWellFormed(st, input, Reply(b, name, outcome), name, b == AnswerBranch);
    }
  }

  /** Numbering continues across an appended message. */
  lemma {:induction false} BlocksAppend(ms: seq<Message>, m: Message, first: nat)
    ensures Blocks(ms + [m], first) == Blocks(ms, first) + Block(first + |ms|, m)
    decreases |ms|
  {
    if ms == [] {
      assert [m][1..] == [];
    } else {
      assert (ms + [m])[1..] == ms[1..] + [m];
      BlocksAppend(ms[1..], m, first + 1);
    }
  }

  /** A submitted message: the name remembered, the reply of its branch, counted on the answer branch. */
  lemma StepOfSubmitted(st: State, input: string, outcome: LlmOutcome)
    requires input != []
    ensures var name := RememberName(st.userName, input);
            var b := Dispatch(input);
            Step(st, input, outcome) == Appended(st, input, Reply(b, name, outcome), name, b == AnswerBranch)
  {
  }

  /** The pieces a turn computes, put together, are the specified step, and keep the shape. */
  lemma TurnIsStep(st: State, input: string, outcome: LlmOutcome, reply: string, name: Option<string>, answered: bool)
    requires input != [] && WellFormed(st)
    requires name == RememberName(st.userName, input)
    requires reply == Reply(Dispatch(input), name, outcome)
    requires answered <==> Dispatch(input) == AnswerBranch
    ensures Appended(st, input, reply, name, answered) == Step(st, input, outcome)
    ensures WellFormed(Appended(st, input, reply, name, answered))
  {
    StepOfSubmitted(st, input, outcome);
    AppendedKeepsWellFormed(st, input, reply, name, answered);
  }

  /** The name lookup at the top of a turn: only while no name is known. */
  method LearnName(stored: Option<string>, input: string) returns (name: Option<string>)
    ensures name == RememberName(stored, input)
  {
    name := stored;
    if !Known(stored) {
      var found := ExtractName(input);
      if found.Some? {
        name := found;
      }
    }
  }

  /** The branch structure of `main`: a bare greeting is greeted, a message the guardrail
      refuses is rejected, anything else goes to the model and is counted. */
  method Respond(input: string, name: Option<string>, outcome: LlmOutcome) returns (reply: string, answered: bool)
    ensures reply == Reply(Dispatch(input), name, outcome)
    ensures answered <==> Dispatch(input) == AnswerBranch
  {
    if IsGreeting(input) {
      reply := GreetingResponse(name);
      answered := false;
    } else if !IsChessRelated(input) {
      reply := RejectionMessage;
      answered := false;
    } else {
      reply := GenerateResponse(outcome);
      answered := true;
    }
  }

  /** A block spelled out with the stored role name upper-cased is the export's block. */
  lemma BlockOfUpperRole(idx: nat, m: Message, role: string)
    requires role == Upper(RoleName(m.role))
    ensures NatToString(idx) + ". [" + role + "]\n" + m.content + "\n\n" == Block(idx, m)
  {
    RoleTagIsUpperRoleName(m.role);
  }

  /** The blocks of the first `i + 1` messages extend those of the first `i`. */
  lemma BlocksPrefixStep(ms: seq<Message>, i: nat)
    requires i < |ms|
    ensures Blocks(ms[..i + 1], 1) == Blocks(ms[..i], 1) + Block(i + 1, ms[i])
  {
    BlocksAppend(ms[..i], ms[i], 1);
    assert ms[..i + 1] == ms[..i] + [ms[i]];
  }

  /** One round of the export loop extends the text by the next message's block. */
  lemma ExportLoopStep(header: string, ms: seq<Message>, i: nat, text: string, role: string)
    requires i < |ms| && text == header + Blocks(ms[..i], 1)
    requires role == Upper(RoleName(ms[i].role))
    ensures text + (NatToString(i + 1) + ". [" + role + "]\n" + ms[i].content + "\n\n")
            == header + Blocks(ms[..i + 1], 1)
  {
    var block := NatToString(i + 1) + ". [" + role + "]\n" + ms[i].content + "\n\n";
    BlockOfUpperRole(i + 1, ms[i], role);
    BlocksPrefixStep(ms, i);
    AppendAssoc(header, Blocks(ms[..i], 1), block);
  }

  lemma AppendAssoc(a: string, b: string, c: string)
    ensures a + b + c == a + (b + c)
  {
  }

  /** One submitted message on values: the name lookup first, then the branch, then the two
      messages appended and the question counted. */
  method Turn(st: State, input: string, outcome: LlmOutcome) returns (next: State)
    requires WellFormed(st)
    ensures next == Step(st, input, outcome)
    ensures WellFormed(next)
  {
    if input == [] {
      return st;
    }
    var name := LearnName(st.userName, input);
    var reply, answered := Respond(input, name, outcome);
    TurnIsStep(st, input, outcome, reply, name, answered);
    next := Appended(st, input, reply, name, answered);
  }

  /** The export loop: one numbered block per message, appended to `text`. */
  method AppendBlocks(header: string, ms: seq<Message>) returns (text: string)
    ensures text == header + Blocks(ms, 1)
  {
    text := header;
    var i := 0;
    while i < |ms|
      invariant 0 <= i <= |ms|
      invariant text == header + Blocks(ms[..i], 1)
    {
      var role := Upper(RoleName(ms[i].role));
      var block := NatToString(i + 1) + ". [" + role + "]\n" + ms[i].content + "\n\n";
      ExportLoopStep(header, ms, i, text, role);
      text := text + block;
      i := i + 1;
    }
    assert ms[..i] == ms;
  }

  // ---------------------------------------------------------------------------
  // The session object

  class ChatSession {
    var messages: seq<Message>
    var userName: Option<string>
    var totalQuestions: nat
    const sessionStartTime: string

    /** The session state as a value. */
    function Snapshot(): State
      reads this
    {
      State(messages, userName, totalQuestions)
    }

    predicate Valid()
      reads this
    {
      WellFormed(Snapshot())
    }

    /** `initialize_session_state` on a first visit; the clock reading is a parameter. */
    constructor (startTime: string)
      ensures Snapshot() == Initial && sessionStartTime == startTime
      ensures Valid()
    {
      messages := [Welcome];
      userName := None;
      totalQuestions := 0;
      sessionStartTime := startTime;
    }

    /** "Clear Chat History": back to the welcome message, no name, no questions. */
    method Reset()
      modifies this
      ensures Snapshot() == Initial
      ensures Valid()
    {
      messages := [Welcome];
      userName := None;
      totalQuestions := 0;
    }

    /** One submitted message, in the order `main` handles it. */
    method HandleTurn(input: string, outcome: LlmOutcome)
      requires Valid()
      modifies this
      ensures Snapshot() == Step(old(Snapshot()), input, outcome)
      ensures Valid()
    {
      var next := Turn(Snapshot(), input, outcome);
      messages, userName, totalQuestions := next.messages, next.userName, next.totalQuestions;
    }

    /** `export_conversation_history`, with the export time as a parameter. */
    method Export(exportTime: string) returns (text: string)
      ensures text == ExportText(Snapshot(), sessionStartTime, exportTime)
    {
      var header := ExportHeader(sessionStartTime, userName, totalQuestions, exportTime);
      text := AppendBlocks(header, messages);
    }
  }
}
