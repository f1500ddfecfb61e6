/**
 * Personalisation (`PersonalizationHelper` in bot.py): pulling a name out of
 * a self-introduction, recognising a bare greeting, and the canned greeting
 * reply.
 */
module Personalization {
  import opened Text
  import opened Guardrails

  /** Words a capture may not be, so that "I'm learning chess" gives no name. */
  const ExcludedNames: seq<string> := ["chess", "here", "there", "player", "learning"]

  /** Alternatives of `^(?:hi|hello|hey)` in the second name pattern. */
  const IntroGreetings: seq<string> := ["hi", "hello", "hey"]

  /** Alternatives of `(?:i am|i'm)` in the second name pattern. */
  const SelfIntros: seq<string> := ["i am", "i'm"]

  /** The closed set of bare greetings. */
  const SimpleGreetings: seq<string> := [
    "hi", "hello", "hey", "greetings",
    "good morning", "good afternoon", "good evening",
    "howdy", "hiya", "yo"
  ]

  /** A non-empty run of letters: what `([a-zA-Z]+)` can capture. */
  predicate IsWord(w: string) {
    |w| > 0 && forall k :: 0 <= k < |w| ==> IsLetter(w[k])
  }

  /** A name as the bot stores it: an upper-case letter followed by lower-case letters. */
  predicate IsProperName(n: string) {
    |n| > 0 && IsUpper(n[0]) && forall k :: 1 <= k < |n| ==> IsLower(n[k])
  }

  /** The greedy capture `([a-zA-Z]+)` whose first letter is at `j`. */
  function WordAt(s: string, j: nat): (w: string)
    requires j < |s| && IsLetter(s[j])
    ensures IsWord(w)
  {
    s[j..LettersEnd(s, j)]
  }

  // ---------------------------------------------------------------------------
  // Pattern 1: `(?:i am|i'm|my name is|this is|call me)\s+([a-zA-Z]+)`, searched anywhere

  /** The word after the leftmost introduction, if there is one. */
  function IntroCapture(s: string): (r: Option<string>)
    ensures r.None? <==> forall p, j :: !IntroMatches(s, p, j)
    ensures r.Some? ==> IsWord(r.value)
  {
    match FirstIntro(s, 0)
    case None => None
    case Some((p, j)) => Some(WordAt(s, j))
  }

  /** Which word pattern 1 captures: the whole word after the leftmost introduction. */
  lemma IntroCaptureIsLeftmostWord(s: string)
    requires IntroCapture(s).Some?
    ensures exists p: nat, j: nat :: && IntroMatches(s, p, j) && j < |s| && IsLetter(s[j])
                                     && (forall q: nat, j': nat :: q < p ==> !IntroMatches(s, q, j'))
                                     && IntroCapture(s).value == WordAt(s, j)
  {
    var f := FirstIntro(s, 0);
    var p, j := f.value.0, f.value.1;
    var k :| 0 <= k < |IntroPhrases| && PhraseThenWord(s, IntroPhrases[k], p, j);
    assert IntroCapture(s).value == WordAt(s, j);
  }

  // ---------------------------------------------------------------------------
  // Pattern 2: `^(?:hi|hello|hey),?\s+(?:i am|i'm)\s+([a-zA-Z]+)`

  /** One way for pattern 2 to match: greeting `greet` at the start, the optional comma
      taken when `b` is one past it, whitespace `s[b..c]`, `intro` at `c`, word at `j`. */
  predicate GreetIntroVia(s: string, greet: string, b: nat, c: nat, intro: string, j: nat) {
    && greet <= s
    && (b == |greet| || (b == |greet| + 1 && OccursAt(s, ",", |greet|)))
    && b < c <= |s| && SpaceRun(s, b, c)
    && PhraseThenWord(s, intro, c, j)
  }

  /** Meaning of pattern 2: it matches and its word starts at `j`. */
  ghost predicate GreetIntroMatches(s: string, j: nat) {
    exists g, b, c, k :: 0 <= g < |IntroGreetings| && 0 <= k < |SelfIntros|
      && GreetIntroVia(s, IntroGreetings[g], b, c, SelfIntros[k], j)
  }

  /** `\s+(?:i am|i'm)\s+[a-zA-Z]` from index `b`. */
  function SelfIntroAfter(s: string, b: nat): (r: Option<nat>)
    requires b <= |s|
    ensures r.Some? ==> exists c, k :: b < c <= |s| && SpaceRun(s, b, c) && 0 <= k < |SelfIntros|
                                      && PhraseThenWord(s, SelfIntros[k], c, r.value)
    ensures r.None? ==> forall c, k, j :: b < c <= |s| && SpaceRun(s, b, c) && 0 <= k < |SelfIntros|
                                         ==> !PhraseThenWord(s, SelfIntros[k], c, j)
  {
    var c := SpacesEnd(s, b);
    if c == b then
      assert forall c', k, j :: b < c' <= |s| && 0 <= k < |SelfIntros| && PhraseThenWord(s, SelfIntros[k], c', j)
                                ==> IsSpace(s[b]) ==> false by {
        forall c', k, j | b < c' <= |s| && 0 <= k < |SelfIntros| && PhraseThenWord(s, SelfIntros[k], c', j)
                          && IsSpace(s[b])
          ensures false
        {
        }
      }
      None
    else
      var r := MatchPhraseAt(s, c, SelfIntros);
      assert r.None? ==> forall c', k, j :: b < c' <= |s| && SpaceRun(s, b, c') && 0 <= k < |SelfIntros|
                                            ==> !PhraseThenWord(s, SelfIntros[k], c', j) by {
        if r.None? {
          forall c', k, j | b < c' <= |s| && SpaceRun(s, b, c') && 0 <= k < |SelfIntros|
                            && PhraseThenWord(s, SelfIntros[k], c', j)
            ensures false
          {
            assert s[c'] == SelfIntros[k][0] == 'i';
            SpaceRunIsMaximal(s, b, c');
          }
        }
      }
      r
  }

  /** The rest of pattern 2 once `greet` has matched at the start: the comma first, then without it. */
  function AfterGreeting(s: string, greet: string): (r: Option<nat>)
    requires greet <= s
    ensures r.Some? ==> exists b, c, k :: 0 <= k < |SelfIntros| && GreetIntroVia(s, greet, b, c, SelfIntros[k], r.value)
    ensures r.None? ==> forall b, c, k, j :: 0 <= k < |SelfIntros| ==> !GreetIntroVia(s, greet, b, c, SelfIntros[k], j)
  {
    var a := |greet|;
    var comma := OccursAt(s, ",", a);
    var withComma := if comma then SelfIntroAfter(s, a + 1) else None;
    if withComma.Some? then
      ghost var c, k :| a + 1 < c <= |s| && SpaceRun(s, a + 1, c) && 0 <= k < |SelfIntros|
                        && PhraseThenWord(s, SelfIntros[k], c, withComma.value);
      assert GreetIntroVia(s, greet, a + 1, c, SelfIntros[k], withComma.value);
      withComma
    else
      var without := SelfIntroAfter(s, a);
      if without.Some? then
        ghost var c, k :| a < c <= |s| && SpaceRun(s, a, c) && 0 <= k < |SelfIntros|
                          && PhraseThenWord(s, SelfIntros[k], c, without.value);
        assert GreetIntroVia(s, greet, a, c, SelfIntros[k], without.value);
        without
      else
        assert forall b, c, k, j :: 0 <= k < |SelfIntros| ==> !GreetIntroVia(s, greet, b, c, SelfIntros[k], j) by {
          forall b, c, k, j | 0 <= k < |SelfIntros| && GreetIntroVia(s, greet, b, c, SelfIntros[k], j)
            ensures false
          {
          }
        }
        None
  }

  /** Tries the greetings in order, as the regex engine does. */
  function GreetIntroFrom(s: string, greets: seq<string>): (r: Option<nat>)
    ensures r.Some? ==> exists g, b, c, k :: 0 <= g < |greets| && 0 <= k < |SelfIntros|
                                            && GreetIntroVia(s, greets[g], b, c, SelfIntros[k], r.value)
    ensures r.None? ==> forall g, b, c, k, j :: 0 <= g < |greets| && 0 <= k < |SelfIntros|
                                               ==> !GreetIntroVia(s, greets[g], b, c, SelfIntros[k], j)
    decreases |greets|
  {
    if greets == [] then None
    else
      var rest := GreetIntroFrom(s, greets[1..]);
      assert forall g :: 1 <= g < |greets| ==> greets[g] == greets[1..][g - 1];
      var here := if greets[0] <= s then AfterGreeting(s, greets[0]) else None;
      if here.Some? then here else rest
  }

  /** The word captured by pattern 2, if it matches. */
  function GreetIntroCapture(s: string): (r: Option<string>)
    ensures r.None? <==> forall j :: !GreetIntroMatches(s, j)
    ensures r.Some? ==> IsWord(r.value)
  {
    match GreetIntroFrom(s, IntroGreetings)
    case None => None
    case Some(j) =>
      assert GreetIntroMatches(s, j);
      Some(WordAt(s, j))
  }

  /** Which word pattern 2 captures: the whole word after the self-introduction. */
  lemma GreetIntroCaptureIsWordAfterIntro(s: string)
    requires GreetIntroCapture(s).Some?
    ensures exists j: nat :: && GreetIntroMatches(s, j) && j < |s| && IsLetter(s[j])
                             && GreetIntroCapture(s).value == WordAt(s, j)
  {
    var j := GreetIntroFrom(s, IntroGreetings).value;
    var g, b, c, k :| 0 <= g < |IntroGreetings| && 0 <= k < |SelfIntros|
                      && GreetIntroVia(s, IntroGreetings[g], b, c, SelfIntros[k], j);
    assert GreetIntroMatches(s, j);
  }

  // ---------------------------------------------------------------------------
  // Pattern 3: `^([a-zA-Z]+)\s+here`

  /** One way for pattern 3 to match: letters `s[..e]`, whitespace `s[e..h]`, "here" at `h`. */
  predicate NameHereVia(s: string, e: nat, h: nat) {
    0 < e < h <= |s| && LetterRun(s, 0, e) && SpaceRun(s, e, h) && OccursAt(s, "here", h)
  }

  /** The leading word captured by pattern 3, if it matches. */
  function NameHereCapture(s: string): (r: Option<string>)
    ensures r.None? <==> forall e, h :: !NameHereVia(s, e, h)
    ensures r.Some? ==> IsWord(r.value) && r.value <= s
  {
    var e := LettersEnd(s, 0);
    var h := SpacesEnd(s, e);
    if 0 < e < h && OccursAt(s, "here", h) then
      assert NameHereVia(s, e, h);
      Some(s[..e])
    else
      assert forall e', h' :: !NameHereVia(s, e', h') by {
        forall e': nat, h': nat | NameHereVia(s, e', h') ensures false {
          LetterRunIsMaximal(s, 0, e');
          assert s[h'] == 'h';
          SpaceRunIsMaximal(s, e', h');
        }
      }
      None
  }

  /** Which word pattern 3 captures: the whole leading word, before the whitespace and "here". */
  lemma NameHereCaptureIsLeadingWord(s: string)
    requires NameHereCapture(s).Some?
    ensures exists h :: NameHereVia(s, |NameHereCapture(s).value|, h)
    ensures forall e: nat, h: nat :: NameHereVia(s, e, h) ==> NameHereCapture(s).value == s[..e]
  {
    var e0 := LettersEnd(s, 0);
    var h0 := SpacesEnd(s, e0);
    assert NameHereVia(s, e0, h0);
    forall e: nat, h: nat | NameHereVia(s, e, h)
      ensures NameHereCapture(s).value == s[..e]
    {
      LetterRunIsMaximal(s, 0, e);
      LetterRunIsMaximal(s, 0, e0);
    }
  }

  // ---------------------------------------------------------------------------
  // extract_name

  /** A capture survives when its capitalised form, lower-cased, is not an excluded word. */
  predicate Admissible(c: Option<string>) {
    c.Some? && Lower(Capitalize(c.value)) !in ExcludedNames
  }

  lemma CapitalizedWordIsProperName(w: string)
    requires IsWord(w)
    ensures IsProperName(Capitalize(w))
  {
  }

  /** The pattern loop: the first capture that is not excluded, capitalised. */
  function FirstAdmitted(captures: seq<Option<string>>): (r: Option<string>)
    requires forall i :: 0 <= i < |captures| && captures[i].Some? ==> IsWord(captures[i].value)
    ensures r.None? <==> forall i :: 0 <= i < |captures| ==> !Admissible(captures[i])
    ensures r.Some? ==> IsProperName(r.value) && Lower(r.value) !in ExcludedNames
    ensures r.Some? ==> exists i :: 0 <= i < |captures| && Admissible(captures[i])
                                    && r.value == Capitalize(captures[i].value)
                                    && forall i' :: 0 <= i' < i ==> !Admissible(captures[i'])
    decreases |captures|
  {
    if captures == [] then None
    else if Admissible(captures[0]) then
      CapitalizedWordIsProperName(captures[0].value);
      Some(Capitalize(captures[0].value))
    else
      var rest := FirstAdmitted(captures[1..]);
      assert forall i :: 1 <= i < |captures| ==> captures[i] == captures[1..][i - 1];
      rest
  }

  /** The three patterns on the lower-cased text, in order. */
  function NameCaptures(text: string): (cs: seq<Option<string>>)
    ensures |cs| == 3
    ensures cs[0].Some? ==> IsWord(cs[0].value)
    ensures cs[1].Some? ==> IsWord(cs[1].value)
    ensures cs[2].Some? ==> IsWord(cs[2].value)
  {
    var s := Lower(text);
    [IntroCapture(s), GreetIntroCapture(s), NameHereCapture(s)]
  }

  /** `PersonalizationHelper.extract_name`. */
  function ExtractName(text: string): (r: Option<string>)
    ensures r.Some? ==> IsProperName(r.value) && Lower(r.value) !in ExcludedNames
  {
    FirstAdmitted(NameCaptures(text))
  }

  // ---------------------------------------------------------------------------
  // is_greeting and get_greeting_response

  /** `PersonalizationHelper.is_greeting`: the trimmed, lower-cased text is one of the bare greetings. */
  predicate IsGreeting(text: string) {
    Strip(Lower(text)) in SimpleGreetings
  }

  /** Python truthiness of the optional stored name. */
  predicate Known(name: Option<string>) {
    name.Some? && name.value != []
  }

  const AnonymousGreeting: string :=
    "Hello! \U{1F44B} Welcome to the Chess Q&A Bot! Feel free to introduce yourself or ask me any chess-related questions!"

  /** `PersonalizationHelper.get_greeting_response`. */
  function GreetingResponse(name: Option<string>): (r: string)
    ensures Known(name) ==> "Hello again, " + name.value <= r
    ensures !Known(name) ==> r == AnonymousGreeting
  {
    if Known(name) then
      "Hello again, " + name.value + "! \U{1F44B} How can I help you with chess today?"
    else
      AnonymousGreeting
  }
}

module PersonalizationFacts {
  import opened Text
  import opened Guardrails
  import opened Personalization

  lemma OccursAtIndex(s: string, w: string, p: nat, i: nat)
    requires OccursAt(s, w, p) && i < |w|
    ensures p + i < |s| && s[p + i] == w[i]
  {
    assert s[p..p + |w|][i] == s[p + i];
  }

  /** The first characters are compatible with one of the introduction phrases. */
  predicate MayStartIntro(s: string, q: nat) {
    && q + 2 < |s|
    && (|| (s[q] == 'i' && ((s[q + 1] == ' ' && s[q + 2] == 'a') || s[q + 1] == '\''))
        || (s[q] == 'm' && s[q + 1] == 'y')
        || (s[q] == 't' && s[q + 1] == 'h')
        || (s[q] == 'c' && s[q + 1] == 'a'))
  }

  /** What the first characters of any match of the introduction pattern look like. */
  lemma IntroStart(s: string, q: nat, j: nat)
    requires IntroMatches(s, q, j)
    ensures MayStartIntro(s, q)
  {
    var k :| 0 <= k < |IntroPhrases| && PhraseThenWord(s, IntroPhrases[k], q, j);
    var w := IntroPhrases[k];
    OccursAtIndex(s, w, q, 0);
    OccursAtIndex(s, w, q, 1);
    OccursAtIndex(s, w, q, 2);
  }

  /** No introduction starts before `n` when no position there looks like the start of one. */
  lemma NoIntroBefore(s: string, n: nat)
    requires forall q :: 0 <= q < n ==> !MayStartIntro(s, q)
    ensures forall q: nat, j: nat :: q < n ==> !IntroMatches(s, q, j)
  {
    forall q: nat, j: nat | q < n && IntroMatches(s, q, j) ensures false {
      IntroStart(s, q, j);
    }
  }

  /** At a given start, the introduction pattern can match in only one way. */
  lemma IntroWordUnique(s: string, p: nat, j1: nat, j2: nat)
    requires IntroMatches(s, p, j1) && IntroMatches(s, p, j2)
    ensures j1 == j2
  {
    var k1 :| 0 <= k1 < |IntroPhrases| && PhraseThenWord(s, IntroPhrases[k1], p, j1);
    var k2 :| 0 <= k2 < |IntroPhrases| && PhraseThenWord(s, IntroPhrases[k2], p, j2);
    var w1, w2 := IntroPhrases[k1], IntroPhrases[k2];
    OccursAtIndex(s, w1, p, 0);
    OccursAtIndex(s, w2, p, 0);
    OccursAtIndex(s, w1, p, 1);
    OccursAtIndex(s, w2, p, 1);
    IntroPhraseByFirstTwo(k1, k2);
    SpaceRunIsMaximal(s, p + |w1|, j1);
    SpaceRunIsMaximal(s, p + |w1|, j2);
  }

  /** The introduction phrases differ in their first two characters. */
  lemma IntroPhraseByFirstTwo(k1: nat, k2: nat)
    requires k1 < |IntroPhrases| && k2 < |IntroPhrases|
    requires IntroPhrases[k1][0] == IntroPhrases[k2][0] && IntroPhrases[k1][1] == IntroPhrases[k2][1]
    ensures k1 == k2
  {
  }

  /** No introduction can start inside the greeting, comma and whitespace that open a match of pattern 2. */
  lemma NoIntroBeforeSelfIntro(s: string, g: nat, b: nat, c: nat, k: nat, j: nat, p: nat, j0: nat)
    requires g < |IntroGreetings| && k < |SelfIntros|
    requires GreetIntroVia(s, IntroGreetings[g], b, c, SelfIntros[k], j)
    requires p < c
    ensures !IntroMatches(s, p, j0)
  {
    var greet := IntroGreetings[g];
    forall j' | IntroMatches(s, p, j') ensures false {
      IntroStart(s, p, j');
      OccursAtIndex(s, SelfIntros[k], c, 0);
      if p < |greet| {
        assert s[p] == greet[p];
        if p == 1 && g == 0 {
          if b == 3 {
            OccursAtIndex(s, ",", 2, 0);
          }
        }
      } else if p < b {
        OccursAtIndex(s, ",", |greet|, 0);
      }
    }
  }

  /** The second name pattern never decides the result: whenever it matches, the leftmost
      match of the first pattern is the same introduction and captures the same word. */
  lemma GreetIntroSubsumed(s: string)
    requires GreetIntroCapture(s).Some?
    ensures IntroCapture(s) == GreetIntroCapture(s)
  {
    var j := GreetIntroFrom(s, IntroGreetings).value;
    var g, b, c, k :| 0 <= g < |IntroGreetings| && 0 <= k < |SelfIntros|
                      && GreetIntroVia(s, IntroGreetings[g], b, c, SelfIntros[k], j);
    SelfIntroIsLeftmostIntro(s, g, b, c, k, j);
  }

  /** The self-introduction inside a match of pattern 2 is the leftmost match of pattern 1. */
  lemma SelfIntroIsLeftmostIntro(s: string, g: nat, b: nat, c: nat, k: nat, j: nat)
    requires g < |IntroGreetings| && k < |SelfIntros|
    requires GreetIntroVia(s, IntroGreetings[g], b, c, SelfIntros[k], j)
    ensures FirstIntro(s, 0).Some? && FirstIntro(s, 0).value.0 == c && FirstIntro(s, 0).value.1 == j
  {
    SelfIntroIsIntro(s, c, k, j);
    LeftmostIntroStart(s, g, b, c, k, j);
    IntroWordUnique(s, c, FirstIntro(s, 0).value.1, j);
  }

  lemma LeftmostIntroStart(s: string, g: nat, b: nat, c: nat, k: nat, j: nat)
    requires g < |IntroGreetings| && k < |SelfIntros|
    requires GreetIntroVia(s, IntroGreetings[g], b, c, SelfIntros[k], j)
    ensures FirstIntro(s, 0).Some? && FirstIntro(s, 0).value.0 == c
  {
    SelfIntroIsIntro(s, c, k, j);
    var first := FirstIntro(s, 0);
    if first.value.0 < c {
      NoIntroBeforeSelfIntro(s, g, b, c, k, j, first.value.0, first.value.1);
    }
  }

  lemma SelfIntroIsIntro(s: string, c: nat, k: nat, j: nat)
    requires k < |SelfIntros| && PhraseThenWord(s, SelfIntros[k], c, j)
    ensures IntroMatches(s, c, j)
  {
    assert SelfIntros[k] == IntroPhrases[k];
  }

  /** Consequently extract_name behaves as if it had only the first and third patterns. */
  lemma ExtractNameSkipsSecondPattern(text: string)
    ensures ExtractName(text) == FirstAdmitted([IntroCapture(Lower(text)), NameHereCapture(Lower(text))])
  {
    var s := Lower(text);
    var cs := NameCaptures(text);
    if GreetIntroCapture(s).Some? {
      GreetIntroSubsumed(s);
    }
    assert !Admissible(cs[0]) ==> !Admissible(cs[1]);
    var two := [IntroCapture(s), NameHereCapture(s)];
    if !Admissible(cs[0]) {
      assert cs[1..] == [cs[1], cs[2]];
      assert FirstAdmitted(cs) == FirstAdmitted(cs[1..]);
      assert FirstAdmitted(cs[1..]) == FirstAdmitted([cs[2]]);
      assert two[1..] == [cs[2]];
    }
  }

  // ---------------------------------------------------------------------------
  // is_greeting

  lemma LowerConcat(a: string, b: string)
    ensures Lower(a + b) == Lower(a) + Lower(b)
  {
  }

  lemma LowerKeepsSpace(a: string)
    requires AllSpace(a)
    ensures Lower(a) == a
  {
  }

  /** A bare greeting is recognised in any letter case and with any surrounding whitespace. */
  lemma {:induction false} GreetingIgnoresCaseAndPadding(pre: string, g: string, post: string, k: nat)
    requires AllSpace(pre) && AllSpace(post)
    requires k < |SimpleGreetings| && Lower(g) == SimpleGreetings[k]
    ensures IsGreeting(pre + g + post)
  {
    LowerConcat(pre + g, post);
    LowerConcat(pre, g);
    LowerKeepsSpace(pre);
    LowerKeepsSpace(post);
    var x := SimpleGreetings[k];
    assert !IsSpace(x[0]) && !IsSpace(x[|x| - 1]);
    StripPadded(pre, x, post);
  }

  /** `is_greeting` holds exactly when the lower-cased text is one of the bare greetings with
      nothing but whitespace around it. */
  lemma GreetingMeaning(text: string)
    ensures IsGreeting(text) <==> exists k :: 0 <= k < |SimpleGreetings| && IsTrimmingOf(SimpleGreetings[k], Lower(text))
  {
    var s := Lower(text);
    if IsGreeting(text) {
      var k :| 0 <= k < |SimpleGreetings| && SimpleGreetings[k] == Strip(s);
      assert IsTrimmingOf(SimpleGreetings[k], s);
    }
    forall k | 0 <= k < |SimpleGreetings| && IsTrimmingOf(SimpleGreetings[k], s)
      ensures IsGreeting(text)
    {
      GreetingUnpadded(k);
      TrimmingIsStrip(SimpleGreetings[k], s);
    }
  }

  lemma GreetingUnpadded(k: nat)
    requires k < |SimpleGreetings|
    ensures var g := SimpleGreetings[k]; g != [] && !IsSpace(g[0]) && !IsSpace(g[|g| - 1])
  {
  }

  /** A greeting followed by more words is not a bare greeting: "hi there" is not one. */
  lemma {:induction false} GreetingWithMoreWordsIsNot(text: string, k: nat, rest: string)
    requires k < |SimpleGreetings|
    requires Strip(Lower(text)) == SimpleGreetings[k] + rest
    requires |rest| > 0 && IsSpace(rest[0])
    ensures !IsGreeting(text)
  {
    var t := Strip(Lower(text));
    var g := SimpleGreetings[k];
    if t in SimpleGreetings {
      var k2 :| 0 <= k2 < |SimpleGreetings| && SimpleGreetings[k2] == t;
      assert t[|g|] == rest[0];
      assert t[..|g|] == g;
      GreetingNotExtendedByWord(k, k2);
    }
  }

  /** No bare greeting is another bare greeting followed by whitespace. */
  lemma GreetingNotExtendedByWord(k: nat, k2: nat)
    requires k < |SimpleGreetings| && k2 < |SimpleGreetings|
    requires |SimpleGreetings[k]| < |SimpleGreetings[k2]|
    requires SimpleGreetings[k2][..|SimpleGreetings[k]|] == SimpleGreetings[k]
    ensures !IsSpace(SimpleGreetings[k2][|SimpleGreetings[k]|])
  {
    var g, g2 := SimpleGreetings[k], SimpleGreetings[k2];
    SpaceInGreeting(k2, |g|);
    GreetingInitials(k);
    GreetingInitials(k2);
    assert g[0] == g2[0];
  }

  /** The only whitespace in a bare greeting is the one after "good". */
  lemma SpaceInGreeting(k: nat, i: nat)
    requires k < |SimpleGreetings| && i < |SimpleGreetings[k]|
    ensures IsSpace(SimpleGreetings[k][i]) ==> 4 <= k <= 6 && i == 4
  {
  }

  /** The greetings starting "good" start with 'g', and those of four letters with 'h'. */
  lemma GreetingInitials(k: nat)
    requires k < |SimpleGreetings|
    ensures SimpleGreetings[k] != []
    ensures 4 <= k <= 6 ==> SimpleGreetings[k][0] == 'g'
    ensures |SimpleGreetings[k]| == 4 ==> SimpleGreetings[k][0] == 'h'
  {
  }

  // ---------------------------------------------------------------------------
  // extract_name on particular inputs

  /** Pattern pattern 2 cannot match unless the text starts with 'h'. */
  lemma NoGreetIntroUnlessH(s: string)
    requires s == [] || s[0] != 'h'
    ensures GreetIntroCapture(s) == None
  {
    forall j | GreetIntroMatches(s, j) ensures false {
    }
  }

  /** The word of the leftmost introduction decides when it is admissible. */
  lemma NameFromLeftmostIntro(text: string, p: nat, j: nat)
    requires IntroMatches(Lower(text), p, j)
    requires forall q: nat, j': nat :: q < p ==> !IntroMatches(Lower(text), q, j')
    requires Admissible(Some(WordAt(Lower(text), j)))
    ensures ExtractName(text) == Some(Capitalize(WordAt(Lower(text), j)))
  {
    var s := Lower(text);
    var f := FirstIntro(s, 0);
    IntroWordUnique(s, p, f.value.1, j);
  }

  /** When the leftmost introduction is excluded, only pattern 3 can still give a name. */
  lemma NameAfterExcludedIntro(text: string, p: nat, j: nat)
    requires IntroMatches(Lower(text), p, j)
    requires forall q: nat, j': nat :: q < p ==> !IntroMatches(Lower(text), q, j')
    requires !Admissible(Some(WordAt(Lower(text), j)))
    ensures ExtractName(text) == FirstAdmitted([NameHereCapture(Lower(text))])
  {
    var s := Lower(text);
    var f := FirstIntro(s, 0);
    IntroWordUnique(s, p, f.value.1, j);
    ExtractNameSkipsSecondPattern(text);
    var two := [IntroCapture(s), NameHereCapture(s)];
    assert two[1..] == [NameHereCapture(s)];
  }

  /** With no introduction anywhere, pattern 3 decides: an admissible leading word followed by
      whitespace and "here" is the name, capitalised, and it is the whole word. */
  lemma NameFromLeadingWord(text: string, e: nat, h: nat)
    requires forall p: nat, j: nat :: !IntroMatches(Lower(text), p, j)
    requires NameHereVia(Lower(text), e, h)
    requires Admissible(Some(Lower(text)[..e]))
    ensures ExtractName(text) == Some(Capitalize(Lower(text)[..e]))
  {
    var s := Lower(text);
    ExtractNameSkipsSecondPattern(text);
    NameHereCaptureIsLeadingWord(s);
    SecondOfTwoAdmitted(IntroCapture(s), NameHereCapture(s));
  }

  lemma SecondOfTwoAdmitted(a: Option<string>, b: Option<string>)
    requires a.None? && b.Some? && IsWord(b.value) && Admissible(b)
    ensures FirstAdmitted([a, b]) == Some(Capitalize(b.value))
  {
    assert [a, b][1..] == [b];
  }

  /** The introduction in "i'm magnus" and the word it captures. */
  lemma MagnusFacts(s: string)
    requires s == "i'm magnus"
    ensures IntroMatches(s, 0, 4) && WordAt(s, 4) == "magnus"
  {
    assert PhraseThenWord(s, IntroPhrases[1], 0, 4);
    LetterRunIsMaximal(s, 4, 10);
  }

  lemma MagnusAdmitted()
    ensures Admissible(Some("magnus")) && Capitalize("magnus") == "Magnus"
  {
    assert Capitalize("magnus") == "Magnus" && Lower("Magnus") == "magnus";
  }

  lemma LowerMagnus(text: string)
    requires text == "I'm Magnus"
    ensures Lower(text) == "i'm magnus"
  {
  }

  /** "I'm Magnus" gives "Magnus". */
  lemma ExtractNameMagnus(text: string)
    requires text == "I'm Magnus"
    ensures ExtractName(text) == Some("Magnus")
  {
    LowerMagnus(text);
    MagnusFacts(Lower(text));
    MagnusAdmitted();
    NameFromLeftmostIntro(text, 0, 4);
  }

  /** The introduction in "my name is alice" and the word it captures. */
  lemma AliceFacts(s: string)
    requires s == "my name is alice"
    ensures IntroMatches(s, 0, 11) && WordAt(s, 11) == "alice"
  {
    assert PhraseThenWord(s, IntroPhrases[2], 0, 11);
    LetterRunIsMaximal(s, 11, 16);
  }

  lemma AliceAdmitted()
    ensures Admissible(Some("alice")) && Capitalize("alice") == "Alice"
  {
    assert Capitalize("alice") == "Alice" && Lower("Alice") == "alice";
  }

  lemma LowerAlice(text: string)
    requires text == "My name is Alice"
    ensures Lower(text) == "my name is alice"
  {
  }

  /** "My name is Alice" gives "Alice". */
  lemma ExtractNameAlice(text: string)
    requires text == "My name is Alice"
    ensures ExtractName(text) == Some("Alice")
  {
    LowerAlice(text);
    AliceFacts(Lower(text));
    AliceAdmitted();
    NameFromLeftmostIntro(text, 0, 11);
  }

  /** "learning" is one of the excluded words. */
  lemma LearningExcluded()
    ensures !Admissible(Some("learning"))
  {
    assert Capitalize("learning") == "Learning" && Lower("Learning") == "learning";
  }

  /** A text starting "i'm learning" introduces the word "learning" at its very start. */
  lemma LearningIntroAtStart(s: string, rest: string)
    requires s == "i'm learning" + rest && (rest == [] || !IsLetter(rest[0]))
    ensures IntroMatches(s, 0, 4) && WordAt(s, 4) == "learning"
    ensures NameHereCapture(s) == None
  {
    assert PhraseThenWord(s, IntroPhrases[1], 0, 4);
    LetterRunIsMaximal(s, 4, 12);
    assert s[4..12] == "learning";
    LetterRunIsMaximal(s, 0, 1);
  }

  /** An excluded capture gives no name: "I'm learning chess". */
  lemma ExtractNameLearningChess(text: string)
    requires text == "I'm learning chess"
    ensures ExtractName(text) == None
  {
    LowerLearningChess(text);
    LearningIntroAtStart(Lower(text), " chess");
    LearningExcluded();
    NameAfterExcludedIntro(text, 0, 4);
  }

  lemma LowerLearningChess(text: string)
    requires text == "I'm learning chess"
    ensures Lower(text) == "i'm learning" + " chess"
  {
  }

  /** Only the leftmost introduction is looked at: a later "my name is Bob" is never seen. */
  lemma ExtractNameLeftmostOnly(text: string)
    requires text == "I'm learning, my name is Bob"
    ensures ExtractName(text) == None
  {
    LowerLeftmostOnly(text);
    LearningIntroAtStart(Lower(text), ", my name is bob");
    LearningExcluded();
    NameAfterExcludedIntro(text, 0, 4);
  }

  lemma LowerLeftmostOnly(text: string)
    requires text == "I'm learning, my name is Bob"
    ensures Lower(text) == "i'm learning" + ", my name is bob"
  {
  }

  /** The pieces of "bob here, i'm learning" that extract_name looks at. */
  lemma BobHereFacts(s: string)
    requires s == "bob here, i'm learning"
    ensures forall q: nat, j: nat :: q < 10 ==> !IntroMatches(s, q, j)
    ensures IntroMatches(s, 10, 14) && WordAt(s, 14) == "learning"
    ensures NameHereCapture(s) == Some("bob")
  {
    BobHereNoEarlyIntro(s);
    BobHereLearning(s);
    BobHereCapture(s);
  }

  lemma BobHereNoEarlyIntro(s: string)
    requires s == "bob here, i'm learning"
    ensures forall q: nat, j: nat :: q < 10 ==> !IntroMatches(s, q, j)
  {
    assert forall q :: 0 <= q < 10 ==> !MayStartIntro(s, q);
    NoIntroBefore(s, 10);
  }

  lemma BobHereLearning(s: string)
    requires s == "bob here, i'm learning"
    ensures IntroMatches(s, 10, 14) && WordAt(s, 14) == "learning"
  {
    assert PhraseThenWord(s, IntroPhrases[1], 10, 14);
    LetterRunIsMaximal(s, 14, 22);
    assert s[14..22] == "learning";
  }

  lemma BobHereCapture(s: string)
    requires s == "bob here, i'm learning"
    ensures NameHereCapture(s) == Some("bob")
  {
    LetterRunIsMaximal(s, 0, 3);
    SpaceRunIsMaximal(s, 3, 4);
    assert OccursAt(s, "here", 4);
    assert s[..3] == "bob";
  }

  lemma BobAdmitted()
    ensures Admissible(Some("bob")) && Capitalize("bob") == "Bob"
  {
    assert Capitalize("bob") == "Bob" && Lower("Bob") == "bob";
  }

  lemma LowerBobHere(text: string)
    requires text == "Bob here, I'm learning"
    ensures Lower(text) == "bob here, i'm learning"
  {
  }

  /** An excluded capture falls through to the next pattern: "Bob here, I'm learning" gives "Bob". */
  lemma ExtractNameFallsThrough(text: string)
    requires text == "Bob here, I'm learning"
    ensures ExtractName(text) == Some("Bob")
  {
    LowerBobHere(text);
    BobHereFacts(Lower(text));
    LearningExcluded();
    NameAfterExcludedIntro(text, 10, 14);
    BobAdmitted();
  }

  /** The pieces of "what is a fork" that extract_name looks at. */
  lemma QuestionFacts(s: string)
    requires s == "what is a fork"
    ensures Lower(s) == s
    ensures forall p: nat, j: nat :: !IntroMatches(s, p, j)
    ensures NameHereCapture(s) == None
  {
    assert forall q :: 0 <= q < |s| ==> !MayStartIntro(s, q);
    NoIntroBefore(s, |s|);
    forall p: nat, j: nat | IntroMatches(s, p, j) ensures false {
      IntroStart(s, p, j);
    }
    LetterRunIsMaximal(s, 0, 4);
    SpaceRunIsMaximal(s, 4, 5);
  }

  /** No introduction and no "<word> here": "what is a fork" gives no name. */
  lemma ExtractNameQuestion(text: string)
    requires text == "what is a fork"
    ensures ExtractName(text) == None
  {
    QuestionFacts(text);
    ExtractNameSkipsSecondPattern(text);
    assert IntroCapture(text) == None;
  }

  // ---------------------------------------------------------------------------
  // is_greeting on particular inputs

  /** A bare greeting typed without padding, in any letter case. */
  lemma GreetingAsTyped(text: string, k: nat)
    requires k < |SimpleGreetings| && Lower(text) == SimpleGreetings[k]
    ensures IsGreeting(text)
  {
    GreetingIgnoresCaseAndPadding([], text, [], k);
    assert [] + text + [] == text;
  }

  lemma HelloLower(text: string)
    requires text == "Hello"
    ensures Lower(text) == SimpleGreetings[1]
  {
  }

  lemma GreetingHello(text: string)
    requires text == "Hello"
    ensures IsGreeting(text)
  {
    HelloLower(text);
    GreetingAsTyped(text, 1);
  }

  lemma GoodMorningPieces(text: string)
    requires text == "  Good Morning \n"
    ensures text == "  " + "Good Morning" + " \n"
    ensures Lower("Good Morning") == SimpleGreetings[4]
    ensures AllSpace("  ") && AllSpace(" \n")
  {
  }

  lemma GreetingPaddedGoodMorning(text: string)
    requires text == "  Good Morning \n"
    ensures IsGreeting(text)
  {
    GoodMorningPieces(text);
    GreetingIgnoresCaseAndPadding("  ", "Good Morning", " \n", 4);
  }

  lemma HiTherePieces(text: string)
    requires text == "hi there"
    ensures Lower(text) == text
    ensures text == SimpleGreetings[0] + " there"
  {
  }

  lemma StripUnpadded(x: string)
    requires x != [] && !IsSpace(x[0]) && !IsSpace(x[|x| - 1])
    ensures Strip(x) == x
  {
    StripPadded("", x, "");
    assert "" + x + "" == x;
  }

  /** "hi there" is not a bare greeting. */
  lemma GreetingHiThereIsNot(text: string)
    requires text == "hi there"
    ensures !IsGreeting(text)
  {
    HiTherePieces(text);
    StripUnpadded(text);
    GreetingWithMoreWordsIsNot(text, 0, " there");
  }
}
