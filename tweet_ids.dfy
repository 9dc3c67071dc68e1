/** Tweet identifiers: `normalizeTweetId` and `extractTweetIdFromUrl`
    (lib/x-cli-common.mjs). Identifiers stay text so that values beyond
    JavaScript's safe-integer range keep every digit. */
module TweetIds {
  import opened Wrappers
  import opened Text

  /** A tweet ID matches `^\d+$`: non-empty, decimal digits only. */
  predicate IsTweetId(s: string)
  {
    |s| > 0 && AllDigits(s)
  }

  /** `normalizeTweetId(value)`: a falsy value (the empty string) gives `null`;
      otherwise the trimmed value when it is a tweet ID, else `null`. */
  function NormalizeTweetId(value: string): (r: Option<string>)
    ensures r.Some? <==> IsTweetId(Trim(value))
    ensures r.Some? ==> r.value == Trim(value)
  {
    if value == "" then None
    else
      var id := Trim(value);
      if IsTweetId(id) then Some(id) else None
  }

  /** A normalized ID is a fixed point of normalization. */
  lemma NormalizeIdempotent(value: string)
    requires NormalizeTweetId(value).Some?
    ensures NormalizeTweetId(NormalizeTweetId(value).value) == NormalizeTweetId(value)
  {
    TrimIdempotent(value);
  }

  /** A token that starts with `-` is never a tweet ID (so `-123` is rejected). */
  lemma NormalizeRejectsDash(value: string)
    requires StartsWithDash(value)
    ensures NormalizeTweetId(value) == None
  {
    assert !IsWhitespace(value[0]);
    assert !IsDigit(Trim(value)[0]);
  }

  /** A token whose first character is neither whitespace nor a digit is
      rejected (so `abc123` is). */
  lemma NormalizeRejectsNonDigit(value: string)
    requires |value| > 0 && !IsWhitespace(value[0]) && !IsDigit(value[0])
    ensures NormalizeTweetId(value) == None
  {
    assert !IsDigit(Trim(value)[0]);
  }

  /** A tweet ID is returned unchanged. */
  lemma NormalizeKeepsTweetId(id: string)
    requires IsTweetId(id)
    ensures NormalizeTweetId(id) == Some(id)
  {
    assert !IsWhitespace(id[0]) && !IsWhitespace(id[|id| - 1]);
    TrimUnchanged(id);
  }

  const StatusMarker: string := "/status/"

  /** The pattern `/\/status\/(\d+)/` can match at position `p` of `url`:
      the marker starts there and at least one digit follows it. */
  predicate StatusMatchAt(url: string, p: int)
  {
    0 <= p && p + |StatusMarker| < |url|
    && url[p..p + |StatusMarker|] == StatusMarker
    && IsDigit(url[p + |StatusMarker|])
  }

  /** The leftmost match position at or after `from`. */
  function FindStatusMatch(url: string, from: nat): (r: Option<nat>)
    requires from <= |url|
    ensures r.Some? ==> from <= r.value && StatusMatchAt(url, r.value)
    ensures r.Some? ==> forall q :: from <= q < r.value ==> !StatusMatchAt(url, q)
    ensures r.None? ==> forall q :: from <= q ==> !StatusMatchAt(url, q)
    decreases |url| - from
  {
    if from == |url| then None
    else if StatusMatchAt(url, from) then Some(from)
    else FindStatusMatch(url, from + 1)
  }

  /** The greedy `\d+`: the longest run of digits at the front of `s`. */
  function LeadingDigits(s: string): (r: string)
    ensures |r| <= |s| && r == s[..|r|]
    ensures AllDigits(r)
    ensures |r| < |s| ==> !IsDigit(s[|r|])
  {
    if s == [] || !IsDigit(s[0]) then ""
    else [s[0]] + LeadingDigits(s[1..])
  }

  /** `extractTweetIdFromUrl(url)`: the digit run captured after the leftmost
      `/status/` that is followed by a digit, or `null` when there is none. */
  function ExtractTweetIdFromUrl(url: string): (r: Option<string>)
    ensures r.Some? <==> exists p :: StatusMatchAt(url, p)
    ensures r.Some? ==> IsTweetId(r.value)
    ensures forall p ::
              (StatusMatchAt(url, p) && (forall q :: 0 <= q < p ==> !StatusMatchAt(url, q))
               ==> r == Some(LeadingDigits(url[p + |StatusMarker|..])))
  {
    if url == "" then None
    else
      match FindStatusMatch(url, 0)
      case None => None
      case Some(p) => Some(LeadingDigits(url[p + |StatusMarker|..]))
  }

  /** A URL built as `<prefix>/status/<id><rest>` yields `id`, when no match
      starts inside the prefix and `rest` does not continue the digit run. */
  lemma {:induction false} ExtractFromStatusUrl(prefix: string, id: string, rest: string)
    requires IsTweetId(id)
    requires rest == [] || !IsDigit(rest[0])
    requires forall q :: 0 <= q < |prefix| ==> !StatusMatchAt(prefix + StatusMarker + id + rest, q)
    ensures ExtractTweetIdFromUrl(prefix + StatusMarker + id + rest) == Some(id)
  {
    var url := prefix + StatusMarker + id + rest;
    var p := |prefix|;
    assert url[p..p + |StatusMarker|] == StatusMarker;
    assert url[p + |StatusMarker|] == id[0];
    assert StatusMatchAt(url, p);
    var tail := url[p + |StatusMarker|..];
    assert tail == id + rest;
    LeadingDigitsOfRun(id, rest);
  }

  lemma {:induction false} LeadingDigitsOfRun(id: string, rest: string)
    requires AllDigits(id)
    requires rest == [] || !IsDigit(rest[0])
    ensures LeadingDigits(id + rest) == id
  {
    if id != [] {
      assert (id + rest)[0] == id[0];
      assert (id + rest)[1..] == id[1..] + rest;
      LeadingDigitsOfRun(id[1..], rest);
    } else {
      assert id + rest == rest;
    }
  }
}
