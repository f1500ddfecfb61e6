/**
 * The answer step (`generate_response` in bot.py). The language-model call
 * itself is outside the model: its outcome is a parameter, either the text it
 * completed with or the description of the exception it raised. What is
 * modelled is what the bot does with that outcome: strip a completion, and
 * turn an exception into one of three fixed-form replies instead of letting
 * it escape.
 */
module Responder {
  import opened Text

  /** What the language-model call did: returned text, or raised an exception with this `str(e)`. */
  datatype LlmOutcome = Completed(text: string) | Raised(description: string)

  datatype ErrorKind = Authentication | RateLimited | Unclassified

  const AuthenticationReply: string :=
    "\U{1F511} **Authentication Error**: " + "Invalid API key. Please check your .env file."

  const RateLimitReply: string :=
    "\U{23F1}\U{FE0F} **Rate Limit**: " + "Too many requests. Please wait a moment."

  const ErrorPrefix: string := "\U{26A0}\U{FE0F} **Error**: "

  /** The lower-cased description mentions `w` somewhere. */
  ghost predicate Mentions(description: string, w: string) {
    exists p :: OccursAt(Lower(description), w, p)
  }

  /** The classification of a caught exception, by what its lower-cased text mentions;
      an authentication hint takes precedence over a rate-limit hint. */
  function ClassifyError(description: string): (k: ErrorKind)
    ensures k == Authentication <==> Mentions(description, "api key") || Mentions(description, "unauthorized")
    ensures k == RateLimited <==>
      !Mentions(description, "api key") && !Mentions(description, "unauthorized")
      && Mentions(description, "rate limit")
    ensures k == Unclassified <==>
      !Mentions(description, "api key") && !Mentions(description, "unauthorized")
      && !Mentions(description, "rate limit")
  {
    var lower := Lower(description);
    if Contains(lower, "api key") || Contains(lower, "unauthorized") then Authentication
    else if Contains(lower, "rate limit") then RateLimited
    else Unclassified
  }

  /** The reply shown in place of an answer when the call raised. */
  function ErrorReply(description: string): (r: string)
    ensures ClassifyError(description) == Authentication ==> r == AuthenticationReply
    ensures ClassifyError(description) == RateLimited ==> r == RateLimitReply
    ensures ClassifyError(description) == Unclassified ==>
      ErrorPrefix <= r && r[|ErrorPrefix|..] == description
  {
    match ClassifyError(description)
    case Authentication => AuthenticationReply
    case RateLimited => RateLimitReply
    case Unclassified => ErrorPrefix + description
  }

  /** `generate_response`: a completion loses its surrounding whitespace and nothing else;
      an exception becomes its reply and never escapes. */
  function GenerateResponse(outcome: LlmOutcome): (r: string)
    ensures outcome.Completed? ==> IsTrimmingOf(r, outcome.text)
    ensures outcome.Completed? ==> r == [] || (!IsSpace(r[0]) && !IsSpace(r[|r| - 1]))
    ensures outcome.Raised? ==> r == ErrorReply(outcome.description)
  {
    match outcome
    case Completed(text) => Strip(text)
    case Raised(description) => ErrorReply(description)
  }
}

/** Facts about how the answer step treats exceptions. */
module ResponderFacts {
  import opened Text
  import opened Responder

  /** The classification does not depend on letter case. */
  lemma ClassifyIgnoresCase(a: string, b: string)
    requires Lower(a) == Lower(b)
    ensures ClassifyError(a) == ClassifyError(b)
  {
  }

  /** A description mentioning both an API key and a rate limit counts as an authentication failure. */
  lemma AuthenticationTakesPrecedence(description: string, p: nat, q: nat)
    requires OccursAt(Lower(description), "api key", p) && OccursAt(Lower(description), "rate limit", q)
    ensures ErrorReply(description) == AuthenticationReply
  {
  }

  /** The three error replies are distinct, and none is mistaken for another. */
  lemma ErrorRepliesDistinct(d1: string, d2: string)
    requires ClassifyError(d1) != ClassifyError(d2)
    ensures ErrorReply(d1) != ErrorReply(d2)
  {
    var r1, r2 := ErrorReply(d1), ErrorReply(d2);
    assert AuthenticationReply[0] == '\U{1F511}';
    assert RateLimitReply[0] == '\U{23F1}';
    assert ErrorPrefix[0] == '\U{26A0}';
    if ClassifyError(d1) == Unclassified {
      assert r1[0] == ErrorPrefix[0];
    }
    if ClassifyError(d2) == Unclassified {
      assert r2[0] == ErrorPrefix[0];
    }
  }

  /** An unclassified description is shown as typed, after the fixed prefix. */
  lemma UnclassifiedKeepsDescription(description: string)
    requires ClassifyError(description) == Unclassified
    ensures ErrorReply(description) == ErrorPrefix + description
  {
    var r := ErrorReply(description);
    assert r == r[..|ErrorPrefix|] + r[|ErrorPrefix|..];
  }

  /** "401 Unauthorized" is an authentication failure. */
  lemma UnauthorizedExample(description: string)
    requires description == "401 Unauthorized"
    ensures ErrorReply(description) == AuthenticationReply
  {
    LowerUnauthorized(description);
    OccursAfter("401 ", "unauthorized");
  }

  lemma LowerUnauthorized(description: string)
    requires description == "401 Unauthorized"
    ensures Lower(description) == "401 " + "unauthorized"
  {
  }

  /** A word occurs right after whatever precedes it. */
  lemma OccursAfter(pre: string, w: string)
    ensures OccursAt(pre + w, w, |pre|)
  {
    assert (pre + w)[|pre|..|pre| + |w|] == w;
  }

  /** "Rate limit reached" is a rate-limit failure. */
  lemma RateLimitExample(description: string)
    requires description == "Rate limit reached"
    ensures ErrorReply(description) == RateLimitReply
  {
    var s := "rate limit reached";
    assert Lower(description) == s;
    assert forall k :: 0 <= k < |s| ==> s[k] != 'p' && s[k] != 'u';
    MissingCharMeansAbsent(s, "api key", 1);
    MissingCharMeansAbsent(s, "unauthorized", 0);
    assert OccursAt(s, "rate limit", 0);
  }

  /** A word with a character the text lacks occurs nowhere in it. */
  lemma MissingCharMeansAbsent(s: string, w: string, i: nat)
    requires i < |w| && forall k :: 0 <= k < |s| ==> s[k] != w[i]
    ensures forall p :: !OccursAt(s, w, p)
  {
    forall p: nat ensures !OccursAt(s, w, p) {
      if p + |w| <= |s| {
        assert s[p..p + |w|][i] == s[p + i];
      }
    }
  }
}
