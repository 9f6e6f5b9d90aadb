/** Runs of `makeRequest` on small pools that pin down how the loop behaves:
    falling back past rate-limit answers, retrying the same key, stopping at
    the first other error, and the cases of no active key and no key. */
module Scenarios {
  import opened ApiKeys
  import opened Selection
  import opened Requests

  /** A text none of whose characters is the first one of `sub` contains no
      occurrence of `sub`. */
  lemma NotContainedWithoutFirstChar(s: string, sub: string)
    requires sub != [] && forall k :: 0 <= k < |s| ==> s[k] != sub[0]
    ensures !Contains(s, sub)
  {
    forall i | 0 <= i <= |s| - |sub| ensures !OccursAt(s, sub, i) {
      assert s[i..i + |sub|][0] == s[i];
    }
  }

  /** An error text that names neither "495" nor "limit": it disables a key
      only through the count. */
  predicate PlainError(s: string)
  {
    !Contains(s, "495") && !Contains(s, "limit")
  }

  /** For instance any text without the characters '4' and 'l'. */
  lemma PlainErrorText(s: string)
    requires forall k :: 0 <= k < |s| ==> s[k] != '4' && s[k] != 'l'
    ensures PlainError(s)
  {
    NotContainedWithoutFirstChar(s, "495");
    NotContainedWithoutFirstChar(s, "limit");
  }

  function Fresh(email: string, token: string): ApiKey
  {
    ApiKey(email, token, true, None, 0)
  }

  function Charged(k: ApiKey, n: int): ApiKey
  {
    k.(errorCount := k.errorCount + n)
  }

  /** A network whose first two rounds answer 495 with body `q` and whose
      later rounds answer 200 with body `d`. */
  function RateLimitedTwice(q: string, d: string): Fetch
  {
    (attempt: nat, url: string) => if attempt < 2 then Response(RateLimitStatus, q) else Response(200, d)
  }

  lemma PickThird(a: ApiKey, b: ApiKey, c: ApiKey)
    requires c.isActive && c.lastUsed.None? && c.errorCount == 0 && a.errorCount == 1 && b.errorCount == 1
    ensures GetNextApiKey([a, b, c]) == Some(2)
  {
    NextApiKeyIsBest([a, b, c], 2);
  }

  lemma PickSecond(a: ApiKey, b: ApiKey, c: ApiKey)
    requires b.isActive && b.lastUsed.None? && b.errorCount == 0 && c.errorCount == 0 && a.errorCount == 1
    ensures GetNextApiKey([a, b, c]) == Some(1)
  {
    NextApiKeyIsBest([a, b, c], 1);
  }

  lemma PickFirst(a: ApiKey, b: ApiKey, c: ApiKey)
    requires a.isActive && a.lastUsed.None? && a.errorCount == 0 && b.errorCount == 0 && c.errorCount == 0
    ensures GetNextApiKey([a, b, c]) == Some(0)
  {
    NextApiKeyIsBest([a, b, c], 0);
  }

  lemma {:induction false} FallbackLastRound(a: ApiKey, b: ApiKey, c: ApiKey, q: string, d: string,
                                             baseUrl: string, endpoint: string, now: nat)
    requires c.isActive && c.lastUsed.None? && c.errorCount == 0
    requires a.errorCount == 1 && b.errorCount == 1 && c.token != a.token && c.token != b.token
    ensures var R := RunFrom(Pool([a, b, c], []), baseUrl, endpoint, RateLimitedTwice(q, d), now, 2, 3, q);
      && R.response == Served(d, c.email) && |R.attempts| == 1 && R.attempts[0].key == 2
      && R.pool == Pool([a, b, c.(lastUsed := Some(now))], [])
  {
    var keys := [a, b, c];
    PickThird(a, b, c);
    assert FindToken(keys, c.token) == Some(2);
    assert MarkSuccess(Pool(keys, []), c.token, now) == Pool([a, b, c.(lastUsed := Some(now))], []);
  }

  lemma {:induction false} FallbackSecondRound(a: ApiKey, b: ApiKey, c: ApiKey, q: string, d: string,
                                               baseUrl: string, endpoint: string, now: nat)
    requires PlainError(q) && b.isActive && c.isActive
    requires b.lastUsed.None? && b.errorCount == 0 && c.errorCount == 0 && a.errorCount == 1
    requires b.token != a.token
    ensures var R := RunFrom(Pool([a, b, c], []), baseUrl, endpoint, RateLimitedTwice(q, d), now, 1, 3, q);
      var R' := RunFrom(Pool([a, Charged(b, 1), c], []), baseUrl, endpoint, RateLimitedTwice(q, d), now, 2, 3, q);
      R.response == R'.response && R.pool == R'.pool && R.attempts[0].key == 1 && R.attempts[1..] == R'.attempts
  {
    var keys := [a, b, c];
    PickSecond(a, b, c);
    assert FindToken(keys, b.token) == Some(1);
    assert MarkError(Pool(keys, []), b.token, q, now) == Pool([a, Charged(b, 1), c], []);
  }

  lemma {:induction false} FallbackFirstRound(a: ApiKey, b: ApiKey, c: ApiKey, q: string, d: string,
                                              baseUrl: string, endpoint: string, now: nat)
    requires PlainError(q) && a.isActive && b.isActive && c.isActive
    requires a.lastUsed.None? && a.errorCount == 0 && b.errorCount == 0 && c.errorCount == 0
    ensures var R := RunFrom(Pool([a, b, c], []), baseUrl, endpoint, RateLimitedTwice(q, d), now, 0, 3, "");
      var R' := RunFrom(Pool([Charged(a, 1), b, c], []), baseUrl, endpoint, RateLimitedTwice(q, d), now, 1, 3, q);
      R.response == R'.response && R.pool == R'.pool && R.attempts[0].key == 0 && R.attempts[1..] == R'.attempts
  {
    var keys := [a, b, c];
    PickFirst(a, b, c);
    assert FindToken(keys, a.token) == Some(0);
    assert MarkError(Pool(keys, []), a.token, q, now) == Pool([Charged(a, 1), b, c], []);
  }

  /** Three fresh keys with distinct tokens; the first two rounds answer 495
      with a body that names neither "495" nor "limit", the third answers
      200. The call falls back key by key and succeeds with the third; the
      first two keys are charged one error each but stay active: the status
      never disables a key, the text names neither "495" nor "limit", and
      each new count, 1, is below the threshold. */
  lemma FallbackPastRateLimit(e0: string, e1: string, e2: string, t0: string, t1: string, t2: string,
                              q: string, d: string, baseUrl: string, endpoint: string, now: nat)
    requires t0 != t1 && t0 != t2 && t1 != t2 && PlainError(q)
    ensures var R := Run(Pool([Fresh(e0, t0), Fresh(e1, t1), Fresh(e2, t2)], []),
                         baseUrl, endpoint, RateLimitedTwice(q, d), now);
      && R.response == Served(d, e2)
      && |R.attempts| == 3 && R.attempts[0].key == 0 && R.attempts[1].key == 1 && R.attempts[2].key == 2
      && R.pool == Pool([Charged(Fresh(e0, t0), 1), Charged(Fresh(e1, t1), 1),
                         Fresh(e2, t2).(lastUsed := Some(now))], [])
  {
    var a, b, c := Fresh(e0, t0), Fresh(e1, t1), Fresh(e2, t2);
    FallbackFirstRound(a, b, c, q, d, baseUrl, endpoint, now);
    FallbackSecondRound(Charged(a, 1), b, c, q, d, baseUrl, endpoint, now);
    FallbackLastRound(Charged(a, 1), Charged(b, 1), c, q, d, baseUrl, endpoint, now);
    var R := Run(Pool([a, b, c], []), baseUrl, endpoint, RateLimitedTwice(q, d), now);
    var R1 := RunFrom(Pool([Charged(a, 1), b, c], []), baseUrl, endpoint, RateLimitedTwice(q, d), now, 1, 3, q);
    assert R.attempts[1] == R1.attempts[0];
    assert R.attempts[2] == R1.attempts[1];
  }

  /** A network on which every attempt throws with message `m`. */
  function AlwaysThrows(m: string): Fetch
  {
    (attempt: nat, url: string) => Thrown(m)
  }

  lemma {:induction false} RetrySecondRound(a: ApiKey, b: ApiKey, m: string, baseUrl: string, endpoint: string, now: nat)
    requires PlainError(m) && a.isActive && b.isActive && a.errorCount == 1 && b.errorCount == 2
    ensures var R := RunFrom(Pool([a, b], []), baseUrl, endpoint, AlwaysThrows(m), now, 1, 2, m);
      R.response == AllFailed(m) && R.pool == Pool([Charged(a, 1), b], []) && |R.attempts| == 1 &&
      R.attempts[0].key == 0
  {
    var keys := [a, b];
    NextApiKeyIsBest(keys, 0);
    assert GetNextApiKey(keys) == Some(0);
    assert FindToken(keys, a.token) == Some(0);
    assert MarkError(Pool(keys, []), a.token, m, now) == Pool([Charged(a, 1), b], []);
  }

  /** Two keys with distinct tokens, the second already with two errors, and
      every attempt throws with a message that names neither "495" nor
      "limit". The rounds are bounded by the number of keys, not by distinct
      keys: the first key, still the one with fewest errors after its first
      failure, is tried in both rounds and the second key never is. */
  lemma SameKeyRetried(e0: string, e1: string, t0: string, t1: string, m: string,
                       baseUrl: string, endpoint: string, now: nat)
    requires t0 != t1 && PlainError(m)
    ensures var b := Charged(Fresh(e1, t1), 2);
      var R := Run(Pool([Fresh(e0, t0), b], []), baseUrl, endpoint, AlwaysThrows(m), now);
      && R.response == AllFailed(m)
      && |R.attempts| == 2 && R.attempts[0].key == 0 && R.attempts[1].key == 0
      && R.pool == Pool([Charged(Fresh(e0, t0), 2), b], [])
  {
    var a, b := Fresh(e0, t0), Charged(Fresh(e1, t1), 2);
    var keys := [a, b];
    NextApiKeyIsBest(keys, 0);
    assert GetNextApiKey(keys) == Some(0);
    assert FindToken(keys, a.token) == Some(0);
    assert MarkError(Pool(keys, []), a.token, m, now) == Pool([Charged(a, 1), b], []);
    RetrySecondRound(Charged(a, 1), b, m, baseUrl, endpoint, now);
    var R := Run(Pool(keys, []), baseUrl, endpoint, AlwaysThrows(m), now);
    var R1 := RunFrom(Pool([Charged(a, 1), b], []), baseUrl, endpoint, AlwaysThrows(m), now, 1, 2, m);
    assert R.attempts[1] == R1.attempts[0];
  }

  /** An error answer that is neither 495 nor about a limit ends the call at
      once with that answer, charged to the key that got it; the other keys
      are not tried. */
  lemma OtherErrorStops(e0: string, e1: string, t0: string, t1: string, status: int, body: string,
                        baseUrl: string, endpoint: string, now: nat)
    requires !IsOk(status) && status != RateLimitStatus && PlainError(body)
    ensures var R := Run(Pool([Fresh(e0, t0), Fresh(e1, t1)], []), baseUrl, endpoint,
                         (attempt: nat, url: string) => Response(status, body), now);
      && R.response == Rejected(body, status, e0)
      && |R.attempts| == 1
      && R.pool == Pool([Charged(Fresh(e0, t0), 1), Fresh(e1, t1)], [])
  {
    var keys := [Fresh(e0, t0), Fresh(e1, t1)];
    NextApiKeyIsBest(keys, 0);
    assert GetNextApiKey(keys) == Some(0);
    assert FindToken(keys, t0) == Some(0);
    assert MarkError(Pool(keys, []), t0, body, now) == Pool([Charged(Fresh(e0, t0), 1), Fresh(e1, t1)], []);
  }

  /** With keys configured but none active, the call makes no attempt,
      changes nothing and answers "unavailable". */
  lemma NoActiveKeyNoFetch(p: Pool, baseUrl: string, endpoint: string, fetch: Fetch, now: nat)
    requires p.keys != [] && NoneActive(p.keys)
    ensures var R := Run(p, baseUrl, endpoint, fetch, now);
      R.attempts == [] && R.pool == p && R.response == Unavailable()
  {
  }

  /** With no key configured there is no round, and the answer is "All API
      keys failed" with an empty last error. */
  lemma NoKeysAllFailed(p: Pool, baseUrl: string, endpoint: string, fetch: Fetch, now: nat)
    requires p.keys == []
    ensures var R := Run(p, baseUrl, endpoint, fetch, now);
      R.attempts == [] && R.pool == p && R.response == AllFailed("")
  {
  }
}
