/** Concrete inputs and outputs of the tweet-ID helpers, as the library's
    tests (test/x-cli-common.test.mjs) exercise them. */
module TestVectors {
  import opened Wrappers
  import opened TweetIds

  lemma NormalizeAcceptsDigits()
    ensures NormalizeTweetId("123456") == Some("123456")
  {
    NormalizeKeepsTweetId("123456");
  }

  lemma NormalizeRejectsExamples()
    ensures NormalizeTweetId("abc123") == None
    ensures NormalizeTweetId("-123") == None
    ensures NormalizeTweetId("") == None
  {
    NormalizeRejectsNonDigit("abc123");
    NormalizeRejectsDash("-123");
  }

  lemma ExtractRejectsNonUrl()
    ensures ExtractTweetIdFromUrl("not-a-url") == None
  {
    assert forall p :: !StatusMatchAt("not-a-url", p);
  }
}
