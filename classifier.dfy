/**
 * The exception handler of `generate_image`: the text of any exception is
 * lower-cased and searched for three markers in a fixed order; the first
 * marker found picks the reply, and an exception with none of them is an
 * internal server error.
 */
module ErrorClassifier {
  import opened Text
  import opened Responses

  const ContentPolicyMarker := "content_policy_violation"
  const RateLimitMarker := "rate_limit"
  const QuotaMarker := "insufficient_quota"

  /** The exception text, lower-cased, contains `marker`
      (Python's `marker in str(e).lower()`). */
  predicate Mentions(message: string, marker: string)
  {
    Contains(LowerAscii(message), marker)
  }

  /** The reply for an exception whose text is `message`. */
  function Classify(message: string): (r: Response)
    ensures r.Failed?
    ensures r in {ContentPolicyViolation, RateLimitExceeded, QuotaExceeded, InternalError}
    ensures r.status in {400, 429, 500}
  {
    if Mentions(message, ContentPolicyMarker) then ContentPolicyViolation
    else if Mentions(message, RateLimitMarker) then RateLimitExceeded
    else if Mentions(message, QuotaMarker) then QuotaExceeded
    else InternalError
  }

  /** The lower-cased text contains `marker` at some position. */
  ghost predicate MentionedSomewhere(message: string, marker: string)
  {
    exists i :: OccursAt(LowerAscii(message), marker, i)
  }

  /** First match wins, stated against the position-based reading of
      "contains": each reply is chosen exactly when its marker occurs and
      no earlier marker does. */
  lemma ClassifyFirstMatchWins(message: string)
    ensures Classify(message) == ContentPolicyViolation
        <==> MentionedSomewhere(message, ContentPolicyMarker)
    ensures Classify(message) == RateLimitExceeded
        <==> !MentionedSomewhere(message, ContentPolicyMarker)
             && MentionedSomewhere(message, RateLimitMarker)
    ensures Classify(message) == QuotaExceeded
        <==> !MentionedSomewhere(message, ContentPolicyMarker)
             && !MentionedSomewhere(message, RateLimitMarker)
             && MentionedSomewhere(message, QuotaMarker)
    ensures Classify(message) == InternalError
        <==> !MentionedSomewhere(message, ContentPolicyMarker)
             && !MentionedSomewhere(message, RateLimitMarker)
             && !MentionedSomewhere(message, QuotaMarker)
  {
    var lower := LowerAscii(message);
    ContainsIff(lower, ContentPolicyMarker);
    ContainsIff(lower, RateLimitMarker);
    ContainsIff(lower, QuotaMarker);
  }

  /** The status codes the classifier can give, by marker: a content-policy
      violation is the client's fault (400), the rate limit and the quota
      are both "too many requests" (429), anything else is 500. */
  lemma ClassifyStatus(message: string)
    ensures Status(Classify(message)) == 400 <==> Mentions(message, ContentPolicyMarker)
    ensures Status(Classify(message)) == 429
        <==> !Mentions(message, ContentPolicyMarker)
             && (Mentions(message, RateLimitMarker) || Mentions(message, QuotaMarker))
    ensures Status(Classify(message)) == 500
        <==> !Mentions(message, ContentPolicyMarker)
             && !Mentions(message, RateLimitMarker)
             && !Mentions(message, QuotaMarker)
  {
  }

  /** The classification ignores the case of ASCII letters. */
  lemma ClassifyIgnoresCase(a: string, b: string)
    requires SameUpToCase(a, b)
    ensures Classify(a) == Classify(b)
  {
    LowerAsciiOfSameUpToCase(a, b);
  }

  /** Classifying the lower-cased text gives the same reply. */
  lemma ClassifyLowered(message: string)
    ensures Classify(LowerAscii(message)) == Classify(message)
  {
    LowerAsciiIdempotent(message);
  }

  /** All three markers contain an underscore, so a text without one is an
      internal server error whatever else it says. */
  lemma NoUnderscoreIsInternalError(message: string)
    requires '_' !in message
    ensures Classify(message) == InternalError
  {
    var lower := LowerAscii(message);
    assert '_' !in lower by {
      forall k | 0 <= k < |lower| ensures lower[k] != '_' {
        assert message[k] != '_';
      }
    }
    assert ContentPolicyMarker[7] == '_';
    assert RateLimitMarker[4] == '_';
    assert QuotaMarker[12] == '_';
    NoOccurrenceWithoutChar(lower, ContentPolicyMarker, '_');
    NoOccurrenceWithoutChar(lower, RateLimitMarker, '_');
    NoOccurrenceWithoutChar(lower, QuotaMarker, '_');
  }

  /** An exception text that spells the content-policy marker in any mix of
      upper and lower case is a content-policy violation, whatever else it
      says (a rate-limit or quota marker around it included). */
  lemma ContentPolicyOutranksEverything(before: string, marker: string, after: string)
    requires LowerAscii(marker) == ContentPolicyMarker
    ensures Classify(before + marker + after) == ContentPolicyViolation
  {
    var message := before + marker + after;
    var lower := LowerAscii(message);
    var n := |ContentPolicyMarker|;
    assert lower[|before|..|before| + n] == ContentPolicyMarker by {
      forall k | 0 <= k < n ensures lower[|before| + k] == ContentPolicyMarker[k] {
        assert message[|before| + k] == marker[k];
        assert LowerAscii(marker)[k] == LowerChar(marker[k]);
      }
    }
    assert OccursAt(lower, ContentPolicyMarker, |before|);
    ContainsIff(lower, ContentPolicyMarker);
  }

  /** The rate limit is tested before the quota; both give 429, but with
      their own error text. */
  lemma RateLimitOutranksQuota(message: string)
    requires !Mentions(message, ContentPolicyMarker)
    requires Mentions(message, RateLimitMarker) && Mentions(message, QuotaMarker)
    ensures Classify(message) == RateLimitExceeded && Status(Classify(message)) == 429
  {
  }
}
