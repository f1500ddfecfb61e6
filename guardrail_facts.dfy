/**
 * Consequences of the guardrail's definition: what is always let through,
 * what is never let through, and the verdict on a few particular messages.
 */
module GuardrailFacts {
  import opened Text
  import opened Guardrails

  /** Any message containing a chess keyword, in any letter case, is accepted. */
  lemma KeywordAccepted(text: string, k: nat, p: nat)
    requires k < |ChessKeywords| && OccursAt(Lower(text), ChessKeywords[k], p)
    ensures IsChessRelated(text)
  {
  }

  /** Any message opening with a greeting is accepted, whatever follows. */
  lemma GreetingPrefixAccepted(text: string, k: nat)
    requires k < |OpeningGreetings| && OpeningGreetings[k] <= Lower(text)
    ensures IsChessRelated(text)
  {
  }

  /** Any message opening with a thank-you or a farewell is accepted. */
  lemma ClosingPrefixAccepted(text: string, k: nat)
    requires k < |ClosingPhrases| && ClosingPhrases[k] <= Lower(text)
    ensures IsChessRelated(text)
  {
  }

  /** An introduction followed by a word anywhere in the message is enough. */
  lemma IntroAccepted(text: string, p: nat, j: nat)
    requires IntroMatches(Lower(text), p, j)
    ensures IsChessRelated(text)
  {
  }

  /** A square, a piece move or castling, as typed, is enough. */
  lemma NotationAccepted(text: string, p: nat)
    requires SquareAt(text, p) || PieceMoveAt(text, p) || CastlingAt(text, p)
    ensures IsChessRelated(text)
  {
  }

  /** Letter case matters only to the notation stage. */
  lemma CaseMattersOnlyForNotation(a: string, b: string)
    requires Lower(a) == Lower(b) && !HasNotation(a) && !HasNotation(b)
    ensures IsChessRelated(a) == IsChessRelated(b)
  {
  }

  /** A word that starts with a letter occurs nowhere in a text without letters. */
  lemma LetterWordAbsent(s: string, w: string, p: nat)
    requires forall i :: 0 <= i < |s| ==> !IsLetter(s[i])
    requires w != [] && IsLetter(w[0])
    ensures !OccursAt(s, w, p)
  {
  }

  /** Every pattern and every keyword needs an ASCII letter, so a message without one is rejected. */
  lemma NoLettersRejected(text: string)
    requires forall i :: 0 <= i < |text| ==> !IsLetter(text[i])
    ensures !IsChessRelated(text)
  {
    var s := Lower(text);
    assert forall i :: 0 <= i < |s| ==> !IsLetter(s[i]);
    forall k | 0 <= k < |OpeningGreetings| ensures !(OpeningGreetings[k] <= s) {
      LetterWordAbsent(s, OpeningGreetings[k], 0);
    }
    forall k | 0 <= k < |ClosingPhrases| ensures !(ClosingPhrases[k] <= s) {
      LetterWordAbsent(s, ClosingPhrases[k], 0);
    }
    forall p: nat, j: nat, k | 0 <= k < |IntroPhrases| ensures !PhraseThenWord(s, IntroPhrases[k], p, j) {
      LetterWordAbsent(s, IntroPhrases[k], p);
    }
    forall k, p: nat | 0 <= k < |ChessKeywords| ensures !OccursAt(s, ChessKeywords[k], p) {
      LetterWordAbsent(s, ChessKeywords[k], p);
    }
    forall p: nat ensures !CastlingAt(text, p) {
      LetterWordAbsent(text, "O-O", p);
    }
  }

  /** The introduction pattern is not anchored, so a bare introduction passes the guardrail. */
  lemma MyNameIsAliceAccepted(text: string)
    requires text == "My name is Alice"
    ensures IsChessRelated(text)
  {
    var s := "my name is alice";
    assert Lower(text) == s;
    assert PhraseThenWord(s, IntroPhrases[2], 0, 11);
  }

  /** Keywords are matched as substrings: "tal" inside "capital" lets this question through. */
  lemma CapitalOfFranceAccepted(text: string)
    requires text == "What is the capital of France?"
    ensures IsChessRelated(text)
  {
    LowerCapital(text);
    assert ChessKeywords[35] == "tal";
    assert OccursAt(Lower(text), ChessKeywords[35], 16);
  }

  lemma LowerCapital(text: string)
    requires text == "What is the capital of France?"
    ensures Lower(text)[16..19] == "tal" && |Lower(text)| == 30
  {
  }

  /** A square name on its own lets a question through. */
  lemma SquareQuestionAccepted(text: string)
    requires text == "Is e4 best?"
    ensures IsChessRelated(text)
  {
    assert text[2] == ' ' && text[3] == 'e' && text[4] == '4' && text[5] == ' ';
    assert SquareAt(text, 3);
  }

  /** The empty message is rejected. */
  lemma EmptyRejected()
    ensures !IsChessRelated("")
  {
    NoLettersRejected("");
  }
}
