/**
 * The topic guardrail (`ChessGuardrails` in bot.py): decides whether a user
 * message may reach the language model. Three checks run in order and the
 * first hit accepts: greeting and introduction patterns on the lower-cased
 * text, a keyword list as substrings of the lower-cased text, and chess
 * notation patterns on the text as typed.
 *
 * Each regular expression is given twice: as a ghost predicate that says
 * what it means for the expression to match (the existential reading of a
 * backtracking search), and as an executable scan whose contract ties it to
 * that meaning.
 */
module Guardrails {
  import opened Text

  const ChessKeywords: seq<string> := [
    "chess", "checkmate", "stalemate", "draw", "resign",
    "pawn", "knight", "bishop", "rook", "queen", "king",
    "castling", "en passant", "promotion", "capture",
    "opening", "middlegame", "endgame", "gambit", "defense",
    "fork", "pin", "skewer", "sacrifice", "tactic", "strategy",
    "grandmaster", "fide", "elo", "rating", "tournament",
    "carlsen", "kasparov", "fischer", "karpov", "tal",
    "move", "board", "square", "piece", "position", "game"
  ]

  /** Alternatives of `^(hi|hello|hey|greetings|good morning|good afternoon|good evening)`. */
  const OpeningGreetings: seq<string> :=
    ["hi", "hello", "hey", "greetings", "good morning", "good afternoon", "good evening"]

  /** Alternatives of `(i am|i'm|my name is|this is|call me)`. */
  const IntroPhrases: seq<string> := ["i am", "i'm", "my name is", "this is", "call me"]

  /** Alternatives of `^(thank you|thanks|bye|goodbye)`. */
  const ClosingPhrases: seq<string> := ["thank you", "thanks", "bye", "goodbye"]

  const RejectionMessage: string :=
    "\U{1F6AB} I'm sorry, but I can only answer questions related to chess.\n\n"
    + "Please ask me about:\n"
    + "• Chess rules and regulations\n"
    + "• Opening strategies and defenses\n"
    + "• Famous players and games\n"
    + "• Chess tactics and strategies\n"
    + "• Tournament history\n"
    + "• Anything else chess-related!"

  // ---------------------------------------------------------------------------
  // Anchored alternatives: `^(a|b|...)`

  /** Tries the alternatives in order at the start of `s`. */
  function StartsWithAny(s: string, alts: seq<string>): (r: bool)
    ensures r <==> exists k :: 0 <= k < |alts| && alts[k] <= s
    decreases |alts|
  {
    if alts == [] then false
    else if alts[0] <= s then true
    else
      var rest := StartsWithAny(s, alts[1..]);
      assert forall k :: 1 <= k < |alts| ==> alts[k] == alts[1..][k - 1];
      rest
  }

  // ---------------------------------------------------------------------------
  // Introductions: `(i am|i'm|my name is|this is|call me)\s+[a-zA-Z]+`

  /** `phrase` occurs at `p`, is followed by at least one whitespace character,
      and the whitespace is followed by a letter at `j`. */
  predicate PhraseThenWord(s: string, phrase: string, p: nat, j: nat) {
    && OccursAt(s, phrase, p)
    && p + |phrase| < j < |s|
    && SpaceRun(s, p + |phrase|, j)
    && IsLetter(s[j])
  }

  /** Meaning of the introduction pattern: it matches at `p` and its word starts at `j`. */
  ghost predicate IntroMatches(s: string, p: nat, j: nat) {
    exists k :: 0 <= k < |IntroPhrases| && PhraseThenWord(s, IntroPhrases[k], p, j)
  }

  /** Tries the alternatives in order at `p`, as the regex engine does; yields where the word starts. */
  function MatchPhraseAt(s: string, p: nat, alts: seq<string>): (r: Option<nat>)
    ensures r.Some? ==> exists k :: 0 <= k < |alts| && PhraseThenWord(s, alts[k], p, r.value)
    ensures r.None? ==> forall k, j :: 0 <= k < |alts| ==> !PhraseThenWord(s, alts[k], p, j)
    decreases |alts|
  {
    if alts == [] then None
    else
      var rest := MatchPhraseAt(s, p, alts[1..]);
      assert forall k :: 1 <= k < |alts| ==> alts[k] == alts[1..][k - 1];
      if OccursAt(s, alts[0], p) then
        var e := p + |alts[0]|;
        var j := SpacesEnd(s, e);
        if e < j < |s| && IsLetter(s[j]) then Some(j)
        else
          assert forall j' :: !PhraseThenWord(s, alts[0], p, j') by {
            forall j' | PhraseThenWord(s, alts[0], p, j') ensures false {
              SpaceRunIsMaximal(s, e, j');
            }
          }
          rest
      else rest
  }

  /** Leftmost match of the introduction pattern at or after `from` (`re.search`). */
  function FirstIntro(s: string, from: nat): (r: Option<(nat, nat)>)
    ensures r.None? ==> forall p, j :: from <= p ==> !IntroMatches(s, p, j)
    ensures r.Some? ==> from <= r.value.0 && IntroMatches(s, r.value.0, r.value.1)
    ensures r.Some? ==> forall q, j :: from <= q < r.value.0 ==> !IntroMatches(s, q, j)
    decreases |s| - from
  {
    if from >= |s| then None
    else
      match MatchPhraseAt(s, from, IntroPhrases)
      case Some(j) => Some((from, j))
      case None => FirstIntro(s, from + 1)
  }

  // ---------------------------------------------------------------------------
  // Chess notation, matched on the text as typed

  /** Python's `\b` at index `i` (ASCII word characters). */
  predicate WordBoundary(s: string, i: nat)
    requires i <= |s|
  {
    (0 < i && IsWordChar(s[i - 1])) != (i < |s| && IsWordChar(s[i]))
  }

  predicate IsFile(c: char) { 'a' <= c <= 'h' }
  predicate IsRank(c: char) { '1' <= c <= '8' }
  predicate IsPieceLetter(c: char) { c == 'K' || c == 'Q' || c == 'R' || c == 'B' || c == 'N' }

  datatype NotationPattern = Square | PieceMove | Castling

  /** `\b[a-h][1-8]\b` matches at `p`. */
  predicate SquareAt(s: string, p: nat) {
    && p + 2 <= |s|
    && WordBoundary(s, p) && IsFile(s[p]) && IsRank(s[p + 1]) && WordBoundary(s, p + 2)
  }

  /** `\b[KQRBN][a-h]?[1-8]?\b` matches at `p` for some choice of the two optional parts. */
  predicate PieceMoveAt(s: string, p: nat) {
    && p < |s|
    && WordBoundary(s, p) && IsPieceLetter(s[p])
    && (|| WordBoundary(s, p + 1)
        || (p + 2 <= |s| && (IsFile(s[p + 1]) || IsRank(s[p + 1])) && WordBoundary(s, p + 2))
        || (p + 3 <= |s| && IsFile(s[p + 1]) && IsRank(s[p + 2]) && WordBoundary(s, p + 3)))
  }

  /** `\bO-O(-O)?\b` matches at `p`, with or without the optional `-O`. */
  predicate CastlingAt(s: string, p: nat) {
    && p <= |s| && WordBoundary(s, p) && OccursAt(s, "O-O", p)
    && (WordBoundary(s, p + 3) || (OccursAt(s, "-O", p + 3) && WordBoundary(s, p + 5)))
  }

  predicate NotationAt(pat: NotationPattern, s: string, p: nat) {
    match pat
    case Square => SquareAt(s, p)
    case PieceMove => PieceMoveAt(s, p)
    case Castling => CastlingAt(s, p)
  }

  /** `re.search(pat, s)` restricted to start positions at or after `from`. */
  function SearchNotation(pat: NotationPattern, s: string, from: nat): (r: bool)
    ensures r <==> exists p :: from <= p && NotationAt(pat, s, p)
    decreases |s| - from
  {
    if from > |s| then false
    else if NotationAt(pat, s, from) then true
    else SearchNotation(pat, s, from + 1)
  }

  // ---------------------------------------------------------------------------
  // The three stages and the classifier

  /** Meaning of stage 1 on the lower-cased text. */
  ghost predicate GreetingOrIntro(lower: string) {
    || (exists k :: 0 <= k < |OpeningGreetings| && OpeningGreetings[k] <= lower)
    || (exists p, j :: IntroMatches(lower, p, j))
    || (exists k :: 0 <= k < |ClosingPhrases| && ClosingPhrases[k] <= lower)
  }

  /** Meaning of stage 2 on the lower-cased text. */
  ghost predicate HasKeyword(lower: string) {
    exists k, p :: 0 <= k < |ChessKeywords| && OccursAt(lower, ChessKeywords[k], p)
  }

  /** Meaning of stage 3 on the text as typed. */
  ghost predicate HasNotation(text: string) {
    exists p :: SquareAt(text, p) || PieceMoveAt(text, p) || CastlingAt(text, p)
  }

  /** Keyword loop with early return. */
  function AnyKeyword(lower: string, keywords: seq<string>): (r: bool)
    ensures r <==> exists k, p :: 0 <= k < |keywords| && OccursAt(lower, keywords[k], p)
    decreases |keywords|
  {
    if keywords == [] then false
    else if Contains(lower, keywords[0]) then true
    else
      var rest := AnyKeyword(lower, keywords[1..]);
      assert forall k :: 1 <= k < |keywords| ==> keywords[k] == keywords[1..][k - 1];
      rest
  }

  /** Stage 3: the three notation searches, in order. */
  function AnyNotation(text: string): (r: bool)
    ensures r <==> HasNotation(text)
  {
    var square := SearchNotation(Square, text, 0);
    var piece := SearchNotation(PieceMove, text, 0);
    var castling := SearchNotation(Castling, text, 0);
    assert square ==> HasNotation(text) by {
      if square { var p :| 0 <= p && NotationAt(Square, text, p); }
    }
    assert piece ==> HasNotation(text) by {
      if piece { var p :| 0 <= p && NotationAt(PieceMove, text, p); }
    }
    assert castling ==> HasNotation(text) by {
      if castling { var p :| 0 <= p && NotationAt(Castling, text, p); }
    }
    assert HasNotation(text) ==> square || piece || castling by {
      if HasNotation(text) {
        var p :| SquareAt(text, p) || PieceMoveAt(text, p) || CastlingAt(text, p);
        assert NotationAt(Square, text, p) || NotationAt(PieceMove, text, p) || NotationAt(Castling, text, p);
      }
    }
    square || piece || castling
  }

  /** Stage 1: the anchored greeting pattern, the introduction pattern, the anchored closing pattern. */
  function AnyGreetingOrIntro(lower: string): (r: bool)
    ensures r <==> GreetingOrIntro(lower)
  {
    var intro := FirstIntro(lower, 0);
    assert intro.Some? ==> exists p, j :: IntroMatches(lower, p, j);
    StartsWithAny(lower, OpeningGreetings) || intro.Some? || StartsWithAny(lower, ClosingPhrases)
  }

  /** `ChessGuardrails.is_chess_related`: accepted exactly when one of the three stages matches. */
  function IsChessRelated(text: string): (r: bool)
    ensures r <==> GreetingOrIntro(Lower(text)) || HasKeyword(Lower(text)) || HasNotation(text)
  {
    var lower := Lower(text);
    if AnyGreetingOrIntro(lower) then true
    else if AnyKeyword(lower, ChessKeywords) then true
    else AnyNotation(text)
  }
}
