/**
 * What the session promises over one turn and over many: the transcript
 * only grows, by one user/assistant pair per submitted message; the name,
 * once known, is kept; the counter counts exactly the messages sent to the
 * language model, whether or not the call succeeded; and the export lists
 * every message, numbered from 1, in order.
 */
module SessionFacts {
  import opened Text
  import opened Guardrails
  import opened Personalization
  import opened PersonalizationFacts
  import opened GuardrailFacts
  import opened Responder
  import opened Session

  // ---------------------------------------------------------------------------
  // One turn

  /** An empty chat box changes nothing. */
  lemma EmptyInputIgnored(st: State, outcome: LlmOutcome)
    ensures Step(st, [], outcome) == st
  {
  }

  /** A submitted message appends the message and one reply, and keeps what was there. */
  lemma StepAppendsPair(st: State, input: string, outcome: LlmOutcome)
    requires input != []
    ensures var next := Step(st, input, outcome);
            && |next.messages| == |st.messages| + 2
            && next.messages[..|st.messages|] == st.messages
            && next.messages[|st.messages|] == Message(User, input)
            && next.messages[|st.messages| + 1].role == Assistant
  {
    var name := RememberName(st.userName, input);
    var b := Dispatch(input);
    StepOfSubmitted(st, input, outcome);
    AppendedGrows(st, input, Reply(b, name, outcome), name, b == AnswerBranch);
  }

  /** The reply on each branch: a bare greeting is answered from the (possibly just learned) name,
      a message the guardrail refuses gets the rejection text, any other message the model's answer. */
  lemma StepReply(st: State, input: string, outcome: LlmOutcome)
    requires input != []
    ensures var next := Step(st, input, outcome);
            var reply := next.messages[|next.messages| - 1].content;
            && (IsGreeting(input) ==> reply == GreetingResponse(next.userName))
            && (!IsGreeting(input) && !IsChessRelated(input) ==> reply == RejectionMessage)
            && (!IsGreeting(input) && IsChessRelated(input) ==> reply == GenerateResponse(outcome))
  {
    var name := RememberName(st.userName, input);
    var b := Dispatch(input);
    StepOfSubmitted(st, input, outcome);
    AppendedGrows(st, input, Reply(b, name, outcome), name, b == AnswerBranch);
  }

  /** Only a message that reaches the language model is counted. */
  lemma StepCounter(st: State, input: string, outcome: LlmOutcome)
    ensures Step(st, input, outcome).totalQuestions
            == st.totalQuestions + (if input != [] && !IsGreeting(input) && IsChessRelated(input) then 1 else 0)
  {
  }

  /** A failed model call is still counted, and its reply is the error text. */
  lemma FailureStillCounted(st: State, input: string, description: string)
    requires input != [] && !IsGreeting(input) && IsChessRelated(input)
    ensures var next := Step(st, input, Raised(description));
            && next.totalQuestions == st.totalQuestions + 1
            && next.messages[|next.messages| - 1].content == ErrorReply(description)
  {
    StepReply(st, input, Raised(description));
  }

  /** The model's outcome never affects the name or the counter. */
  lemma OutcomeIgnoredByNameAndCounter(st: State, input: string, o1: LlmOutcome, o2: LlmOutcome)
    ensures Step(st, input, o1).userName == Step(st, input, o2).userName
    ensures Step(st, input, o1).totalQuestions == Step(st, input, o2).totalQuestions
  {
  }

  /** On a greeting or a rejection the model's outcome affects nothing at all. */
  lemma OutcomeIgnoredUnlessAnswered(st: State, input: string, o1: LlmOutcome, o2: LlmOutcome)
    requires input == [] || Dispatch(input) != AnswerBranch
    ensures Step(st, input, o1) == Step(st, input, o2)
  {
  }

  // ---------------------------------------------------------------------------
  // Many turns

  /** One turn: two messages more when a message was submitted, none otherwise; nothing lost. */
  lemma StepGrows(st: State, input: string, outcome: LlmOutcome)
    ensures |Step(st, input, outcome).messages| == |st.messages| + (if input != [] then 2 else 0)
    ensures st.messages <= Step(st, input, outcome).messages
  {
    if input != [] {
      StepAppendsPair(st, input, outcome);
    }
  }

  lemma PrefixTransitive(a: seq<Message>, b: seq<Message>, c: seq<Message>)
    requires a <= b && b <= c
    ensures a <= c
  {
    assert c[..|a|] == b[..|a|];
  }

  /** The transcript only grows, by two messages per submitted message. */
  lemma {:induction false} RunGrows(st: State, turns: seq<Exchange>)
    ensures |Run(st, turns).messages| == |st.messages| + 2 * Submitted(turns)
    ensures st.messages <= Run(st, turns).messages
    decreases |turns|
  {
    if turns != [] {
      var e := turns[0];
      var next := Step(st, e.input, e.outcome);
      StepGrows(st, e.input, e.outcome);
      RunGrows(next, turns[1..]);
      PrefixTransitive(st.messages, next.messages, Run(next, turns[1..]).messages);
    }
  }

  /** The counter goes up by exactly the number of messages sent to the model. */
  lemma {:induction false} RunCounter(st: State, turns: seq<Exchange>)
    ensures Run(st, turns).totalQuestions == st.totalQuestions + Answered(turns)
    decreases |turns|
  {
    if turns != [] {
      RunCounter(Step(st, turns[0].input, turns[0].outcome), turns[1..]);
    }
  }

  /** A known name is never replaced. */
  lemma {:induction false} RunKeepsName(st: State, turns: seq<Exchange>)
    requires Known(st.userName)
    ensures Run(st, turns).userName == st.userName
    decreases |turns|
  {
    if turns != [] {
      RunKeepsName(Step(st, turns[0].input, turns[0].outcome), turns[1..]);
    }
  }

  /** Every reachable transcript keeps its shape. */
  lemma {:induction false} RunKeepsWellFormed(st: State, turns: seq<Exchange>)
    requires WellFormed(st)
    ensures WellFormed(Run(st, turns))
    decreases |turns|
  {
    if turns != [] {
      StepKeepsWellFormed(st, turns[0].input, turns[0].outcome);
      RunKeepsWellFormed(Step(st, turns[0].input, turns[0].outcome), turns[1..]);
    }
  }

  /** Runs over the same messages, from states with the same name and counter, agree on both,
      whatever the model did on each turn. */
  lemma {:induction false} RunIgnoresOutcomes(s1: State, s2: State, t1: seq<Exchange>, t2: seq<Exchange>)
    requires s1.userName == s2.userName && s1.totalQuestions == s2.totalQuestions
    requires |t1| == |t2| && forall i :: 0 <= i < |t1| ==> t1[i].input == t2[i].input
    ensures Run(s1, t1).userName == Run(s2, t2).userName
    ensures Run(s1, t1).totalQuestions == Run(s2, t2).totalQuestions
    decreases |t1|
  {
    if t1 != [] {
      RunIgnoresOutcomes(Step(s1, t1[0].input, t1[0].outcome), Step(s2, t2[0].input, t2[0].outcome),
                             t1[1..], t2[1..]);
    }
  }

  /** The state a reset returns to is a well-formed transcript of one welcome message. */
  lemma InitialState()
    ensures WellFormed(Initial)
    ensures Initial.messages == [Welcome] && Initial.userName == None && Initial.totalQuestions == 0
  {
  }

  // ---------------------------------------------------------------------------
  // A conversation

  /** No bare greeting is longer than fourteen characters. */
  lemma LongTextIsNotGreeting(text: string)
    requires |Strip(Lower(text))| > 14
    ensures !IsGreeting(text)
  {
    NoLongGreeting(Strip(Lower(text)));
  }

  lemma NoLongGreeting(s: string)
    requires |s| > 14
    ensures s !in SimpleGreetings
  {
  }

  /** "My name is Alice" is not a bare greeting. */
  lemma AliceNotGreeting(text: string)
    requires text == "My name is Alice"
    ensures !IsGreeting(text)
  {
    LowerAlice(text);
    StripUnpadded("my name is alice");
    LongTextIsNotGreeting(text);
  }

  /** A first introduction that the guardrail lets through: the name is stored and the
      message counted as a question. */
  lemma IntroducedAndAnswered(st: State, text: string, outcome: LlmOutcome, name: string)
    requires text != [] && !Known(st.userName) && ExtractName(text) == Some(name)
    requires !IsGreeting(text) && IsChessRelated(text)
    ensures Step(st, text, outcome)
            == State(st.messages + [Message(User, text), Message(Assistant, GenerateResponse(outcome))],
                     Some(name), st.totalQuestions + 1)
  {
    FirstNameRemembered(st.userName, text, name);
    AnswerDispatched(text);
    AnsweredStep(st, text, outcome, Some(name));
  }

  lemma FirstNameRemembered(stored: Option<string>, text: string, name: string)
    requires !Known(stored) && ExtractName(text) == Some(name)
    ensures RememberName(stored, text) == Some(name)
  {
  }

  lemma AnswerDispatched(text: string)
    requires !IsGreeting(text) && IsChessRelated(text)
    ensures Dispatch(text) == AnswerBranch
  {
  }

  /** A submitted message on the answer branch, with the name it leaves behind. */
  lemma AnsweredStep(st: State, text: string, outcome: LlmOutcome, name: Option<string>)
    requires text != [] && Dispatch(text) == AnswerBranch && RememberName(st.userName, text) == name
    ensures Step(st, text, outcome)
            == State(st.messages + [Message(User, text), Message(Assistant, GenerateResponse(outcome))],
                     name, st.totalQuestions + 1)
  {
    StepOfSubmitted(st, text, outcome);
  }

  /** "My name is Alice" as a first message: the name is found, and the message is neither a bare
      greeting nor refused by the guardrail, so it goes to the model (and, by
      `IntroducedAndAnswered`, the name is stored and the message counted). */
  lemma AliceIntroduces(text: string)
    requires text == "My name is Alice"
    ensures RememberName(None, text) == Some("Alice")
    ensures Dispatch(text) == AnswerBranch
  {
    ExtractNameAlice(text);
    AliceNotGreeting(text);
    MyNameIsAliceAccepted(text);
  }

  /** A bare greeting once a name is known: greeted by that name, not counted. */
  lemma KnownNameGreeted(st: State, text: string, outcome: LlmOutcome)
    requires text != [] && Known(st.userName) && IsGreeting(text)
    ensures Step(st, text, outcome)
            == State(st.messages + [Message(User, text), Message(Assistant, GreetingResponse(st.userName))],
                     st.userName, st.totalQuestions)
  {
    StepOfSubmitted(st, text, outcome);
  }

  // ---------------------------------------------------------------------------
  // Export

  /** The blocks of two transcripts laid end to end, numbered on. */
  lemma {:induction false} BlocksConcat(a: seq<Message>, b: seq<Message>, first: nat)
    ensures Blocks(a + b, first) == Blocks(a, first) + Blocks(b, first + |a|)
    decreases |a|
  {
    if a == [] {
      assert a + b == b;
    } else {
      assert (a + b)[1..] == a[1..] + b;
      BlocksConcat(a[1..], b, first + 1);
    }
  }

  /** The numbered blocks around message `i`: message `i` is printed as block `first + i`. */
  lemma BlocksSplit(ms: seq<Message>, first: nat, i: nat)
    requires i < |ms|
    ensures Blocks(ms, first) == Blocks(ms[..i], first) + Block(first + i, ms[i]) + Blocks(ms[i + 1..], first + i + 1)
  {
    var rest := [ms[i]] + ms[i + 1..];
    assert ms == ms[..i] + rest;
    BlocksConcat(ms[..i], rest, first);
    BlocksCons(ms[i], ms[i + 1..], first + i);
    AppendAssoc(Blocks(ms[..i], first), Block(first + i, ms[i]), Blocks(ms[i + 1..], first + i + 1));
  }

  lemma BlocksCons(m: Message, rest: seq<Message>, first: nat)
    ensures Blocks([m] + rest, first) == Block(first, m) + Blocks(rest, first + 1)
  {
    assert ([m] + rest)[1..] == rest;
  }

  lemma BlocksOfPair(m1: Message, m2: Message, first: nat)
    ensures Blocks([m1, m2], first) == Block(first, m1) + Block(first + 1, m2)
  {
    assert [m1, m2][1..] == [m2];
    assert Blocks([m2], first + 1) == Block(first + 1, m2) + Blocks([], first + 2);
  }

  /** After a turn's two messages the export keeps every earlier block and adds two, numbered on. */
  lemma BlocksAfterPair(ms: seq<Message>, m1: Message, m2: Message)
    ensures Blocks(ms + [m1, m2], 1) == Blocks(ms, 1) + (Block(|ms| + 1, m1) + Block(|ms| + 2, m2))
  {
    BlocksConcat(ms, [m1, m2], 1);
    BlocksOfPair(m1, m2, |ms| + 1);
  }

  /** The number at the head of a block reads back as the message's position. */
  lemma BlockNumberReadsBack(idx: nat, m: Message)
    ensures var digits := NatToString(idx);
            && digits <= Block(idx, m)
            && DecimalValue(digits) == idx
            && Block(idx, m)[|digits|] == '.'
  {
    DecimalRoundTrip(idx);
    var digits := NatToString(idx);
    assert Block(idx, m) == digits + (". [" + RoleTag(m.role) + "]\n" + m.content + "\n\n");
  }

  /** The export's header names the user, or "Anonymous" while no name is known, and states the
      question counter in decimal. */
  lemma ExportHeaderShowsUserAndCount(st: State, start: string, time: string)
    ensures var user := if Known(st.userName) then st.userName.value else "Anonymous";
            OccursAt(ExportText(st, start, time), "# User: " + user + "\n", |ExportTitle(start)|)
    ensures OccursAt(ExportText(st, start, time), "# Total Questions: " + NatToString(st.totalQuestions) + "\n",
                     |ExportTitle(start)| + |UserLine(st.userName)|)
  {
    SecondAndThirdPieces(ExportTitle(start), UserLine(st.userName), CountLine(st.totalQuestions),
                         TimeLine(time), Rule(), "\n\n", Blocks(st.messages, 1));
  }

  /** Where the second and third of seven concatenated pieces sit. */
  lemma SecondAndThirdPieces(a: string, b: string, c: string, d: string, e: string, f: string, g: string)
    ensures OccursAt(a + b + c + d + e + f + g, b, |a|)
    ensures OccursAt(a + b + c + d + e + f + g, c, |a| + |b|)
  {
    var t := a + b + c + d + e + f + g;
    assert t == a + b + c + (d + e + f + g);
    assert t[|a|..|a| + |b|] == b;
    assert t[|a| + |b|..|a| + |b| + |c|] == c;
  }

  /** An export of a fresh or just-reset session lists the welcome message alone. */
  lemma ExportOfInitial(start: string, time: string)
    ensures ExportText(Initial, start, time)
            == ExportHeader(start, None, 0, time) + ("1. [ASSISTANT]\n" + GreetingMessage + "\n\n")
  {
    OneBlock(Welcome, 1);
    FirstAssistantBlock(GreetingMessage);
  }

  lemma OneBlock(m: Message, first: nat)
    ensures Blocks([m], first) == Block(first, m)
  {
    assert Blocks([m], first) == Block(first, m) + Blocks([], first + 1);
  }

  /** An assistant message numbered 1 is printed under "1. [ASSISTANT]". */
  lemma FirstAssistantBlock(content: string)
    ensures Block(1, Message(Assistant, content)) == "1. [ASSISTANT]\n" + content + "\n\n"
  {
    assert NatToString(1) == "1";
    assert "1" + ". [" + "ASSISTANT" + "]\n" == "1. [ASSISTANT]\n";
  }
}
