/** `extractCsrfToken` of src/lib/api.ts: the value of the XSRF-TOKEN cookie,
    read out of `document.cookie` (a `; `-separated cookie string, section 5.4
    of RFC 6265) with the unanchored pattern `/XSRF-TOKEN=([^;]+)/` and then
    percent-decoded (section 2.1 of RFC 3986) by `decodeURIComponent`. */
module CsrfCookie {
  import opened Wrappers
  import opened Failures
  import PercentCoding

  const Prefix: string := "XSRF-TOKEN="

  /** The pattern matches at position p: the prefix, then at least one
      character other than `;`. Nothing requires p to start a cookie name. */
  predicate MatchesAt(c: string, p: nat) {
    p + |Prefix| < |c| && c[p..p + |Prefix|] == Prefix && c[p + |Prefix|] != ';'
  }

  /** The end of the `[^;]+` run that starts at i: the next `;`, or the end. */
  function ValueEnd(c: string, i: nat): (j: nat)
    requires i <= |c|
    ensures i <= j <= |c|
    ensures forall k :: i <= k < j ==> c[k] != ';'
    ensures j == |c| || c[j] == ';'
    decreases |c| - i
  {
    if i == |c| || c[i] == ';' then i else ValueEnd(c, i + 1)
  }

  /** The leftmost position at or after `from` where the pattern matches. */
  function FirstMatch(c: string, from: nat): (r: Option<nat>)
    requires from <= |c|
    ensures r.Some? ==> from <= r.value && MatchesAt(c, r.value)
    ensures r.Some? ==> forall q :: from <= q < r.value ==> !MatchesAt(c, q)
    ensures r.None? ==> forall q :: from <= q ==> !MatchesAt(c, q)
    decreases |c| - from
  {
    if from == |c| then None
    else if MatchesAt(c, from) then Some(from)
    else FirstMatch(c, from + 1)
  }

  /** `match[1]`: the captured group, or None when the pattern does not match.
      A capture is never empty and never holds a `;`. */
  function Capture(c: string): (r: Option<string>)
    ensures r.None? <==> forall p :: !MatchesAt(c, p)
    ensures r.Some? ==> r.value != [] && ';' !in r.value
  {
    match FirstMatch(c, 0)
    case None => None
    case Some(p) =>
      var start := p + |Prefix|;
      Some(c[start..ValueEnd(c, start)])
  }

  /** extractCsrfToken(): None stands for `typeof document === 'undefined'`;
      Ok(None) is the `null` it returns; Err is the URIError that
      decodeURIComponent throws. A token it returns is never empty. */
  function ExtractCsrfToken(document: Option<string>): (r: Result<Option<string>, Failure>)
    ensures document.None? ==> r == Ok(None)
    ensures r == Ok(None) <==> document.None? || forall p :: !MatchesAt(document.value, p)
    ensures r.Err? ==> r.error == UriMalformed
    ensures r.Ok? && r.value.Some? ==> r.value.value != ""
  {
    match document
    case None => Ok(None)
    case Some(cookie) =>
      match Capture(cookie)
      case None => Ok(None)
      case Some(raw) =>
        match PercentCoding.Decode(raw)
        case None => Err(UriMalformed)
        case Some(token) => Ok(Some(token))
  }

  /** The capture is the whole `[^;]+` run after the leftmost match: given the
      leftmost match at p and a run v that stops at a `;` or at the end, the
      capture is exactly v. */
  lemma CaptureOfLeftmostMatch(c: string, p: nat, v: string)
    requires MatchesAt(c, p)
    requires forall q :: 0 <= q < p ==> !MatchesAt(c, q)
    requires p + |Prefix| + |v| <= |c| && c[p + |Prefix|..p + |Prefix| + |v|] == v
    requires ';' !in v
    requires p + |Prefix| + |v| == |c| || c[p + |Prefix| + |v|] == ';'
    ensures Capture(c) == Some(v)
  {
    var start := p + |Prefix|;
    assert forall k :: start <= k < start + |v| ==> c[k] == v[k - start] != ';';
  }

  /** No match of the pattern starts inside `pre` when `pre` holds no match
      itself and ends with the `; ` separator, whatever follows it. */
  lemma NoMatchInEarlierCookies(pre: string, rest: string, q: nat)
    requires forall p :: !MatchesAt(pre, p)
    requires pre == "" || (|pre| >= 2 && pre[|pre| - 2..] == "; ")
    requires q < |pre|
    ensures !MatchesAt(pre + rest, q)
  {
    var c := pre + rest;
    var n := |Prefix|;
    if q + n < |pre| {
      assert !MatchesAt(pre, q);
      assert c[q..q + n] == pre[q..q + n] && c[q + n] == pre[q + n];
    } else if q + n < |c| {
      if q <= |pre| - 2 {
        assert c[q..q + n][|pre| - 2 - q] == pre[|pre| - 2..][0] == ';';
        assert Prefix[|pre| - 2 - q] != ';';
      } else {
        assert c[q..q + n][0] == pre[|pre| - 2..][1] == ' ';
      }
    }
  }

  /** In a cookie jar in the `name=value; name=value` form of section 5.4 of
      RFC 6265, the capture is the value of the XSRF-TOKEN cookie, provided no
      earlier cookie contains the pattern. */
  lemma CaptureOfCookieValue(pre: string, v: string, post: string)
    requires v != [] && ';' !in v
    requires forall p :: !MatchesAt(pre, p)
    requires pre == "" || (|pre| >= 2 && pre[|pre| - 2..] == "; ")
    requires post == "" || post[0] == ';'
    ensures Capture(pre + Prefix + v + post) == Some(v)
  {
    var c := pre + Prefix + v + post;
    var p := |pre|;
    assert c == pre + (Prefix + v + post);
    forall q | 0 <= q < p ensures !MatchesAt(c, q) {
      NoMatchInEarlierCookies(pre, Prefix + v + post, q);
    }
    assert c[p..p + |Prefix|] == Prefix;
    assert c[p + |Prefix|] == v[0];
    assert c[p + |Prefix|..p + |Prefix| + |v|] == v;
    assert p + |Prefix| + |v| < |c| ==> c[p + |Prefix| + |v|] == post[0];
    CaptureOfLeftmostMatch(c, p, v);
  }

  /** The XSRF-TOKEN cookie holding the encodeURIComponent form of a token t
      yields t, provided no earlier cookie contains the pattern. */
  lemma ExtractEncodedToken(pre: string, t: string, post: string)
    requires t != ""
    requires forall p :: !MatchesAt(pre, p)
    requires pre == "" || (|pre| >= 2 && pre[|pre| - 2..] == "; ")
    requires post == "" || post[0] == ';'
    ensures ExtractCsrfToken(Some(pre + Prefix + PercentCoding.Encode(t) + post)) == Ok(Some(t))
  {
    CaptureOfCookieValue(pre, PercentCoding.Encode(t), post);
    PercentCoding.DecodeEncode(t);
  }

  /** The pattern is not anchored to a cookie name: a cookie named
      `X-XSRF-TOKEN` is read as if it were XSRF-TOKEN. */
  lemma UnanchoredNameMatches()
    ensures ExtractCsrfToken(Some("X-XSRF-TOKEN=abc")) == Ok(Some("abc"))
  {
    var c := "X-XSRF-TOKEN=abc";
    assert c[0..11][1] != Prefix[1];
    assert c[1..12][0] != Prefix[0];
    assert c[2..13] == Prefix;
    CaptureOfLeftmostMatch(c, 2, "abc");
    PercentCoding.DecodeWithoutEscapes("abc");
  }

  /** An empty XSRF-TOKEN value does not match; a later occurrence is used. */
  lemma EmptyValueSkipped()
    ensures ExtractCsrfToken(Some("XSRF-TOKEN=; XSRF-TOKEN=b")) == Ok(Some("b"))
  {
    var c := "XSRF-TOKEN=; XSRF-TOKEN=b";
    assert c[11] == ';';
    forall q | 0 < q < 13 ensures !MatchesAt(c, q) {
      assert c[q..q + 11][0] == c[q] != Prefix[0];
    }
    assert c[13..24] == Prefix;
    assert c[24..25] == "b";
    CaptureOfLeftmostMatch(c, 13, "b");
    PercentCoding.DecodeWithoutEscapes("b");
  }
}
