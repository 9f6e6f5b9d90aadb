/** The retry loop of `makeRequest`, as a function of the pool and of the
    answers the network gives. One attempt per round, at most one round per
    key of the array; a transport failure or a rate-limit answer moves on to
    the next round, any other error answer ends the call. */
module Requests {
  import opened ApiKeys
  import opened Selection

  /** The status the service uses for "rate limit reached". */
  const RateLimitStatus: int := 495

  /** The status reported when no key could serve the call. */
  const UnavailableStatus: int := 503

  /** What one attempt gives back: an HTTP answer with its status and its body
      text, or an exception raised inside the attempt (a network error, or a
      body that could not be read or parsed) with its message. */
  datatype Outcome = Response(status: int, body: string) | Thrown(message: string)

  /** The network as one call sees it: the attempt number and the URL fetched
      determine the outcome. */
  type Fetch = (nat, string) -> Outcome

  /** The `ApiResponse` shape; `data` is the payload of a 2xx answer. */
  datatype ApiResponse = ApiResponse(
    success: bool, data: Option<string>, error: Option<string>, status: Option<int>, usedApiKey: Option<string>)

  /** One attempt: the index of the key used, the URL fetched, the outcome. */
  datatype Attempt = Attempt(key: nat, url: string, outcome: Outcome)

  datatype RequestResult = RequestResult(pool: Pool, response: ApiResponse, attempts: seq<Attempt>)

  /** `response.ok`. */
  predicate IsOk(status: int)
  {
    200 <= status <= 299
  }

  predicate Succeeds(o: Outcome)
  {
    o.Response? && IsOk(o.status)
  }

  /** The outcomes after which the loop tries again: an exception, or an
      error answer with status 495 or a body that mentions "limit". */
  predicate MovesOn(o: Outcome)
  {
    o.Thrown? || (!IsOk(o.status) && (o.status == RateLimitStatus || Contains(o.body, "limit")))
  }

  /** The text recorded as the last error: the body, or the message. */
  function ErrorText(o: Outcome): string
  {
    if o.Response? then o.body else o.message
  }

  function Unavailable(): ApiResponse
  {
    ApiResponse(false, None, Some("All API keys are currently unavailable"), Some(UnavailableStatus), None)
  }

  function AllFailed(lastError: string): ApiResponse
  {
    ApiResponse(false, None, Some("All API keys failed. Last error: " + lastError), Some(UnavailableStatus), None)
  }

  function Served(data: string, email: string): ApiResponse
  {
    ApiResponse(true, Some(data), None, None, Some(email))
  }

  function Rejected(body: string, status: int, email: string): ApiResponse
  {
    ApiResponse(false, None, Some(body), Some(status), Some(email))
  }

  /** The URL of an attempt: base URL, endpoint, then the key's token. */
  function RequestUrl(baseUrl: string, endpoint: string, token: string): string
  {
    baseUrl + endpoint + "&token=" + token
  }

  /** Rounds `attempt`, `attempt + 1`, ... of the loop, `lastError` being the
      error text recorded so far. */
  function RunFrom(p: Pool, baseUrl: string, endpoint: string, fetch: Fetch, now: nat,
                   attempt: nat, maxRetries: nat, lastError: string): RequestResult
    decreases maxRetries - attempt
  {
    if attempt >= maxRetries then RequestResult(p, AllFailed(lastError), [])
    else match GetNextApiKey(p.keys)
      case None => RequestResult(p, Unavailable(), [])
      case Some(i) =>
        var key := p.keys[i];
        var url := RequestUrl(baseUrl, endpoint, key.token);
        var outcome := fetch(attempt, url);
        var a := Attempt(i, url, outcome);
        if Succeeds(outcome) then
          RequestResult(MarkSuccess(p, key.token, now), Served(outcome.body, key.email), [a])
        else
          var p' := MarkError(p, key.token, ErrorText(outcome), now);
          if MovesOn(outcome) then
            var rest := RunFrom(p', baseUrl, endpoint, fetch, now, attempt + 1, maxRetries, ErrorText(outcome));
            rest.(attempts := [a] + rest.attempts)
          else
            RequestResult(p', Rejected(outcome.body, outcome.status, key.email), [a])
  }

  /** `makeRequest(endpoint)` on pool `p`: as many rounds as there are keys. */
  function Run(p: Pool, baseUrl: string, endpoint: string, fetch: Fetch, now: nat): RequestResult
  {
    RunFrom(p, baseUrl, endpoint, fetch, now, 0, |p.keys|, "")
  }

  predicate NoneActive(keys: seq<ApiKey>)
  {
    forall i :: 0 <= i < |keys| ==> !keys[i].isActive
  }

  function Last(s: seq<Attempt>): Attempt
    requires s != []
  {
    s[|s| - 1]
  }

  /** Whether a run from round `attempt` with `lastError` recorded ends in
      the pool and the answer of `goal`. */
  ghost predicate EndsAs(p: Pool, baseUrl: string, endpoint: string, fetch: Fetch, now: nat,
                         attempt: nat, maxRetries: nat, lastError: string, goal: RequestResult)
  {
    var R := RunFrom(p, baseUrl, endpoint, fetch, now, attempt, maxRetries, lastError);
    R.pool == goal.pool && R.response == goal.response
  }

  /** One round that moves on: the run's end is that of the next round's run
      on the pool with the error recorded. */
  lemma RunStepMovesOn(p: Pool, baseUrl: string, endpoint: string, fetch: Fetch, now: nat,
                       attempt: nat, maxRetries: nat, lastError: string, i: nat, goal: RequestResult)
    requires attempt < maxRetries && GetNextApiKey(p.keys) == Some(i)
    requires EndsAs(p, baseUrl, endpoint, fetch, now, attempt, maxRetries, lastError, goal)
    requires var o := fetch(attempt, RequestUrl(baseUrl, endpoint, p.keys[i].token));
      !Succeeds(o) && MovesOn(o)
    ensures var o := fetch(attempt, RequestUrl(baseUrl, endpoint, p.keys[i].token));
      EndsAs(MarkError(p, p.keys[i].token, ErrorText(o), now), baseUrl, endpoint, fetch, now,
             attempt + 1, maxRetries, ErrorText(o), goal)
  {
  }

  /** One round that ends the run: no active key, a success, or an error
      answer that does not move on. */
  lemma RunStepStops(p: Pool, baseUrl: string, endpoint: string, fetch: Fetch, now: nat,
                     attempt: nat, maxRetries: nat, lastError: string, goal: RequestResult)
    requires attempt < maxRetries
    requires EndsAs(p, baseUrl, endpoint, fetch, now, attempt, maxRetries, lastError, goal)
    ensures GetNextApiKey(p.keys).None? ==> goal.pool == p && goal.response == Unavailable()
    ensures GetNextApiKey(p.keys).Some? ==>
      var key := p.keys[GetNextApiKey(p.keys).value];
      var o := fetch(attempt, RequestUrl(baseUrl, endpoint, key.token));
      && (Succeeds(o) ==> goal.pool == MarkSuccess(p, key.token, now) && goal.response == Served(o.body, key.email))
      && (!Succeeds(o) && !MovesOn(o) ==>
            goal.pool == MarkError(p, key.token, ErrorText(o), now) &&
            goal.response == Rejected(o.body, o.status, key.email))
  {
  }

  /** A run keeps every key's identity and cancels no pending re-enable. */
  lemma {:induction false} RunKeepsIdentities(p: Pool, baseUrl: string, endpoint: string, fetch: Fetch, now: nat,
                                              attempt: nat, maxRetries: nat, lastError: string)
    ensures KeepsKeys(p, RunFrom(p, baseUrl, endpoint, fetch, now, attempt, maxRetries, lastError).pool)
    decreases maxRetries - attempt
  {
    var R := RunFrom(p, baseUrl, endpoint, fetch, now, attempt, maxRetries, lastError);
    if attempt < maxRetries && GetNextApiKey(p.keys).Some? {
      var key := p.keys[GetNextApiKey(p.keys).value];
      var outcome := fetch(attempt, RequestUrl(baseUrl, endpoint, key.token));
      if Succeeds(outcome) {
        assert R.pool == MarkSuccess(p, key.token, now);
      } else {
        var p' := MarkError(p, key.token, ErrorText(outcome), now);
        MarkErrorKeepsKeys(p, key.token, ErrorText(outcome), now);
        if MovesOn(outcome) {
          RunKeepsIdentities(p', baseUrl, endpoint, fetch, now, attempt + 1, maxRetries, ErrorText(outcome));
          var rest := RunFrom(p', baseUrl, endpoint, fetch, now, attempt + 1, maxRetries, ErrorText(outcome));
          KeepsKeysTransitive(p, p', rest.pool);
          assert R.pool == rest.pool;
        } else {
          assert R.pool == p';
        }
      }
    } else {
      assert R.pool == p;
    }
  }

  /** The attempts of a run started in round `attempt` on pool `p`: there
      are at most as many as rounds left, attempt `k` is made in round
      `attempt + k` with the URL carrying the token of its key and gets the
      network's answer for that round and URL, and every attempt but the last
      moved on. */
  ghost predicate RunShaped(p: Pool, baseUrl: string, endpoint: string, fetch: Fetch,
                            attempt: nat, maxRetries: nat, attempts: seq<Attempt>)
  {
    && (attempts == [] || attempt + |attempts| <= maxRetries)
    && (forall k :: 0 <= k < |attempts| ==>
          && attempts[k].key < |p.keys|
          && attempts[k].url == RequestUrl(baseUrl, endpoint, p.keys[attempts[k].key].token)
          && attempts[k].outcome == fetch(attempt + k, attempts[k].url))
    && (forall k :: 0 <= k < |attempts| - 1 ==> MovesOn(attempts[k].outcome))
  }

  /** An attempt that moved on, followed by the attempts of the next rounds. */
  lemma ShapedCons(p: Pool, p': Pool, baseUrl: string, endpoint: string, fetch: Fetch,
                   attempt: nat, maxRetries: nat, a: Attempt, rest: seq<Attempt>)
    requires SameIdentities(p.keys, p'.keys) && attempt < maxRetries
    requires a.key < |p.keys| && a.url == RequestUrl(baseUrl, endpoint, p.keys[a.key].token)
    requires a.outcome == fetch(attempt, a.url) && MovesOn(a.outcome)
    requires RunShaped(p', baseUrl, endpoint, fetch, attempt + 1, maxRetries, rest)
    ensures RunShaped(p, baseUrl, endpoint, fetch, attempt, maxRetries, [a] + rest)
  {
    var s := [a] + rest;
    forall k | 1 <= k < |s|
      ensures s[k].key < |p.keys|
      ensures s[k].url == RequestUrl(baseUrl, endpoint, p.keys[s[k].key].token)
      ensures s[k].outcome == fetch(attempt + k, s[k].url)
    {
      assert s[k] == rest[k - 1];
      assert p'.keys[rest[k - 1].key].token == p.keys[rest[k - 1].key].token;
    }
    forall k | 1 <= k < |s| - 1 ensures MovesOn(s[k].outcome) {
      assert s[k] == rest[k - 1];
    }
  }

  /** A single attempt, made in round `attempt` as the shape requires. */
  lemma ShapedSingle(p: Pool, baseUrl: string, endpoint: string, fetch: Fetch,
                     attempt: nat, maxRetries: nat, a: Attempt)
    requires attempt < maxRetries && a.key < |p.keys|
    requires a.url == RequestUrl(baseUrl, endpoint, p.keys[a.key].token) && a.outcome == fetch(attempt, a.url)
    ensures RunShaped(p, baseUrl, endpoint, fetch, attempt, maxRetries, [a])
  {
  }

  lemma {:induction false} RunShape(p: Pool, baseUrl: string, endpoint: string, fetch: Fetch, now: nat,
                                    attempt: nat, maxRetries: nat, lastError: string)
    ensures RunShaped(p, baseUrl, endpoint, fetch, attempt, maxRetries,
                      RunFrom(p, baseUrl, endpoint, fetch, now, attempt, maxRetries, lastError).attempts)
    decreases maxRetries - attempt
  {
    var R := RunFrom(p, baseUrl, endpoint, fetch, now, attempt, maxRetries, lastError);
    if attempt < maxRetries && GetNextApiKey(p.keys).Some? {
      var i := GetNextApiKey(p.keys).value;
      var key := p.keys[i];
      var url := RequestUrl(baseUrl, endpoint, key.token);
      var outcome := fetch(attempt, url);
      var a := Attempt(i, url, outcome);
      if Succeeds(outcome) || !MovesOn(outcome) {
        assert R.attempts == [a];
        ShapedSingle(p, baseUrl, endpoint, fetch, attempt, maxRetries, a);
      } else {
        var p' := MarkError(p, key.token, ErrorText(outcome), now);
        RunShape(p', baseUrl, endpoint, fetch, now, attempt + 1, maxRetries, ErrorText(outcome));
        var rest := RunFrom(p', baseUrl, endpoint, fetch, now, attempt + 1, maxRetries, ErrorText(outcome));
        ShapedCons(p, p', baseUrl, endpoint, fetch, attempt, maxRetries, a, rest.attempts);
        assert R.attempts == [a] + rest.attempts;
      }
    }
  }

  /** Each round uses the key `getNextApiKey` picks on the pool as the round
      starts, which is the best active key of that pool; after an attempt
      that moves on, the rest of the run is the run of the next round on the
      pool with that error recorded. By induction over the rounds, every
      attempted key is the best active key of its own round. */
  lemma RunFirstAttempt(p: Pool, baseUrl: string, endpoint: string, fetch: Fetch, now: nat,
                        attempt: nat, maxRetries: nat, lastError: string)
    ensures var R := RunFrom(p, baseUrl, endpoint, fetch, now, attempt, maxRetries, lastError);
      R.attempts != [] ==>
        && attempt < maxRetries
        && GetNextApiKey(p.keys) == Some(R.attempts[0].key)
        && IsBest(p.keys, R.attempts[0].key)
        && p.keys[R.attempts[0].key].isActive
        && (MovesOn(R.attempts[0].outcome) ==>
              var a := R.attempts[0];
              var rest := RunFrom(MarkError(p, p.keys[a.key].token, ErrorText(a.outcome), now),
                                  baseUrl, endpoint, fetch, now, attempt + 1, maxRetries, ErrorText(a.outcome));
              R.attempts[1..] == rest.attempts && R.pool == rest.pool && R.response == rest.response)
  {
    var R := RunFrom(p, baseUrl, endpoint, fetch, now, attempt, maxRetries, lastError);
    if attempt < maxRetries && GetNextApiKey(p.keys).Some? {
      NextApiKeyIsBest(p.keys, GetNextApiKey(p.keys).value);
    }
  }

  /** A call makes at most one attempt per round, hence at most as many
      attempts as there are keys, active or not. */
  lemma RunAttemptsBounded(p: Pool, baseUrl: string, endpoint: string, fetch: Fetch, now: nat)
    ensures |Run(p, baseUrl, endpoint, fetch, now).attempts| <= |p.keys|
  {
    RunShape(p, baseUrl, endpoint, fetch, now, 0, |p.keys|, "");
  }

  /** How the answer of a run `R` follows from its attempts: no attempt means
      no key was active (or no round was left) and nothing changed; otherwise
      the last attempt decides, as `AnsweredBy` says. */
  ghost predicate RunAnswered(p: Pool, attempt: nat, maxRetries: nat, lastError: string, R: RequestResult)
  {
    && (R.response.success <==> R.attempts != [] && Succeeds(Last(R.attempts).outcome))
    && (R.attempts == [] ==>
          && R.pool == p
          && R.response == (if attempt >= maxRetries then AllFailed(lastError) else Unavailable())
          && (attempt < maxRetries ==> forall i :: 0 <= i < |p.keys| ==> !p.keys[i].isActive))
    && (R.attempts != [] ==>
          && Last(R.attempts).key < |p.keys|
          && AnsweredBy(R.response, Last(R.attempts), p.keys[Last(R.attempts).key].email,
                        attempt + |R.attempts| >= maxRetries))
  }

  /** The answer a call gives when its last attempt was `a`, made with the key
      of email `email`: a 2xx answer is a success served by that key, an error
      answer that does not move on is returned as it is with that key, and an
      outcome that moves on ends in "All API keys failed" when the rounds ran
      out (`outOfRounds`) and in "unavailable" when no active key was left. */
  ghost predicate AnsweredBy(response: ApiResponse, a: Attempt, email: string, outOfRounds: bool)
  {
    && (Succeeds(a.outcome) ==> response == Served(a.outcome.body, email))
    && (!Succeeds(a.outcome) && !MovesOn(a.outcome) ==>
          response == Rejected(a.outcome.body, a.outcome.status, email))
    && (MovesOn(a.outcome) ==>
          response == if outOfRounds then AllFailed(ErrorText(a.outcome)) else Unavailable())
  }

  /** An attempt that moved on, followed by the run `rest` of the next
      rounds on pool `p'`. */
  lemma AnsweredCons(p: Pool, p': Pool, attempt: nat, maxRetries: nat, lastError: string,
                     a: Attempt, rest: RequestResult)
    requires SameIdentities(p.keys, p'.keys) && attempt < maxRetries && a.key < |p.keys|
    requires !Succeeds(a.outcome) && MovesOn(a.outcome)
    requires RunAnswered(p', attempt + 1, maxRetries, ErrorText(a.outcome), rest)
    ensures RunAnswered(p, attempt, maxRetries, lastError, rest.(attempts := [a] + rest.attempts))
  {
    var R := rest.(attempts := [a] + rest.attempts);
    if rest.attempts != [] {
      assert Last(R.attempts) == Last(rest.attempts);
    } else {
      assert Last(R.attempts) == a;
    }
  }

  lemma {:induction false} RunResponse(p: Pool, baseUrl: string, endpoint: string, fetch: Fetch, now: nat,
                                       attempt: nat, maxRetries: nat, lastError: string)
    ensures RunAnswered(p, attempt, maxRetries, lastError,
                        RunFrom(p, baseUrl, endpoint, fetch, now, attempt, maxRetries, lastError))
    decreases maxRetries - attempt
  {
    var R := RunFrom(p, baseUrl, endpoint, fetch, now, attempt, maxRetries, lastError);
    if attempt < maxRetries && GetNextApiKey(p.keys).Some? {
      var i := GetNextApiKey(p.keys).value;
      var key := p.keys[i];
      var url := RequestUrl(baseUrl, endpoint, key.token);
      var outcome := fetch(attempt, url);
      var a := Attempt(i, url, outcome);
      if Succeeds(outcome) || !MovesOn(outcome) {
        assert R.attempts == [a];
      } else {
        var p' := MarkError(p, key.token, ErrorText(outcome), now);
        RunResponse(p', baseUrl, endpoint, fetch, now, attempt + 1, maxRetries, ErrorText(outcome));
        var rest := RunFrom(p', baseUrl, endpoint, fetch, now, attempt + 1, maxRetries, ErrorText(outcome));
        AnsweredCons(p, p', attempt, maxRetries, lastError, a, rest);
        assert R == rest.(attempts := [a] + rest.attempts);
      }
    }
  }

  lemma AllFailedIsNotUnavailable(lastError: string)
    ensures AllFailed(lastError) != Unavailable()
  {
    var failed := AllFailed(lastError).error.value;
    var unavailable := Unavailable().error.value;
    assert failed[13] == 'f' && unavailable[13] == 'a';
  }

  /** "Unavailable" is only answered when no key is left active. */
  lemma {:induction false} RunUnavailable(p: Pool, baseUrl: string, endpoint: string, fetch: Fetch, now: nat,
                                          attempt: nat, maxRetries: nat, lastError: string)
    ensures var R := RunFrom(p, baseUrl, endpoint, fetch, now, attempt, maxRetries, lastError);
      R.response == Unavailable() ==> NoneActive(R.pool.keys)
    decreases maxRetries - attempt
  {
    AllFailedIsNotUnavailable(lastError);
    if attempt < maxRetries && GetNextApiKey(p.keys).Some? {
      var key := p.keys[GetNextApiKey(p.keys).value];
      var outcome := fetch(attempt, RequestUrl(baseUrl, endpoint, key.token));
      if !Succeeds(outcome) && MovesOn(outcome) {
        RunUnavailable(MarkError(p, key.token, ErrorText(outcome), now), baseUrl, endpoint, fetch, now,
                       attempt + 1, maxRetries, ErrorText(outcome));
      }
    }
  }

  /** Number of attempts on key `j` whose outcome was not a 2xx answer: the
      errors the run records against `j`. */
  function Charges(attempts: seq<Attempt>, j: nat): nat
  {
    if attempts == [] then 0
    else (if attempts[0].key == j && !Succeeds(attempts[0].outcome) then 1 else 0) + Charges(attempts[1..], j)
  }

  predicate Tried(attempts: seq<Attempt>, j: nat)
  {
    exists k :: 0 <= k < |attempts| && attempts[k].key == j
  }

  /** Whether run `R` ended with a success served by key `j`. */
  predicate ServedBy(R: RequestResult, j: nat)
  {
    R.response.success && R.attempts != [] && Last(R.attempts).key == j
  }

  /** What run `R` did to key `j`: its count grew by one per failed attempt
      on it and dropped by one, if positive, when it served the final
      success; its `lastUsed` changed only if it served the success; and a
      key never tried is exactly as it was. */
  ghost predicate RunCharged(p: Pool, now: nat, j: nat, R: RequestResult)
    requires j < |p.keys| && j < |R.pool.keys|
  {
    var c := p.keys[j].errorCount + Charges(R.attempts, j);
    && R.pool.keys[j].errorCount == (if ServedBy(R, j) && c > 0 then c - 1 else c)
    && R.pool.keys[j].lastUsed == (if ServedBy(R, j) then Some(now) else p.keys[j].lastUsed)
    && (!Tried(R.attempts, j) ==> R.pool.keys[j] == p.keys[j])
  }

  /** A failed attempt that moved on, charged to its key in `p'`, followed by
      the run `rest` of the next rounds. */
  lemma ChargedCons(p: Pool, p': Pool, now: nat, j: nat, a: Attempt, rest: RequestResult)
    requires j < |p.keys| && |p'.keys| == |p.keys| && |rest.pool.keys| == |p.keys|
    requires !Succeeds(a.outcome) && (rest.response.success ==> rest.attempts != [])
    requires p'.keys[j].errorCount == p.keys[j].errorCount + (if a.key == j then 1 else 0)
    requires p'.keys[j].lastUsed == p.keys[j].lastUsed
    requires a.key != j ==> p'.keys[j] == p.keys[j]
    requires RunCharged(p', now, j, rest)
    ensures RunCharged(p, now, j, rest.(attempts := [a] + rest.attempts))
  {
    var R := rest.(attempts := [a] + rest.attempts);
    assert R.attempts[1..] == rest.attempts;
    if rest.attempts != [] {
      assert Last(R.attempts) == Last(rest.attempts);
    }
    assert ServedBy(R, j) == ServedBy(rest, j);
    if !Tried(R.attempts, j) {
      assert a.key != j by {
        assert R.attempts[0] == a;
      }
      forall k | 0 <= k < |rest.attempts| ensures rest.attempts[k].key != j {
        assert R.attempts[k + 1] == rest.attempts[k];
      }
    }
  }

  /** With distinct tokens, every error and success a run records lands on
      the key that was used, so the run's effect on each key is `RunCharged`. */
  lemma {:induction false} RunAccounting(p: Pool, baseUrl: string, endpoint: string, fetch: Fetch, now: nat,
                                         attempt: nat, maxRetries: nat, lastError: string, j: nat)
    requires DistinctTokens(p.keys) && j < |p.keys|
    ensures |RunFrom(p, baseUrl, endpoint, fetch, now, attempt, maxRetries, lastError).pool.keys| == |p.keys|
    ensures RunCharged(p, now, j, RunFrom(p, baseUrl, endpoint, fetch, now, attempt, maxRetries, lastError))
    decreases maxRetries - attempt
  {
    var R := RunFrom(p, baseUrl, endpoint, fetch, now, attempt, maxRetries, lastError);
    RunKeepsIdentities(p, baseUrl, endpoint, fetch, now, attempt, maxRetries, lastError);
    if attempt < maxRetries && GetNextApiKey(p.keys).Some? {
      var i := GetNextApiKey(p.keys).value;
      var key := p.keys[i];
      var url := RequestUrl(baseUrl, endpoint, key.token);
      var outcome := fetch(attempt, url);
      var a := Attempt(i, url, outcome);
      FindOwnToken(p.keys, i);
      if Succeeds(outcome) || !MovesOn(outcome) {
        assert R.attempts == [a];
        assert R.attempts[1..] == [];
        assert R.attempts[0] == a;
      } else {
        var p' := MarkError(p, key.token, ErrorText(outcome), now);
        assert DistinctTokens(p'.keys);
        RunAccounting(p', baseUrl, endpoint, fetch, now, attempt + 1, maxRetries, ErrorText(outcome), j);
        RunResponse(p', baseUrl, endpoint, fetch, now, attempt + 1, maxRetries, ErrorText(outcome));
        var rest := RunFrom(p', baseUrl, endpoint, fetch, now, attempt + 1, maxRetries, ErrorText(outcome));
        ChargedCons(p, p', now, j, a, rest);
        assert R == rest.(attempts := [a] + rest.attempts);
      }
    }
  }

  /** Whether one of the failed attempts on key `j`, its count starting at
      `c` and following the run's errors and successes on `j`, met
      `DisablesKey`: the attempts of a run that disable `j`. */
  function DisabledBy(attempts: seq<Attempt>, j: nat, c: int): bool
  {
    if attempts == [] then false
    else if attempts[0].key != j then DisabledBy(attempts[1..], j, c)
    else if Succeeds(attempts[0].outcome) then DisabledBy(attempts[1..], j, if c > 0 then c - 1 else c)
    else DisablesKey(ErrorText(attempts[0].outcome), c + 1) || DisabledBy(attempts[1..], j, c + 1)
  }

  /** Number of re-enables in `ts` that capture key `j`. */
  function TimersFor(ts: seq<Timer>, j: nat): nat
  {
    if ts == [] then 0 else (if ts[0].key == j then 1 else 0) + TimersFor(ts[1..], j)
  }

  lemma {:induction false} TimersForConcat(a: seq<Timer>, b: seq<Timer>, j: nat)
    ensures TimersFor(a + b, j) == TimersFor(a, j) + TimersFor(b, j)
  {
    if a == [] {
      assert a + b == b;
    } else {
      assert (a + b)[1..] == a[1..] + b;
      TimersForConcat(a[1..], b, j);
    }
  }

  /** The re-enables scheduled in `q` after those of `p`. */
  function Added(p: Pool, q: Pool): seq<Timer>
    requires |p.pending| <= |q.pending|
  {
    q.pending[|p.pending|..]
  }

  /** What run `R` did to the flag of key `j` and to the schedule: `j` ends
      inactive exactly when it was inactive or an attempt of the run disabled
      it; the run scheduled one re-enable of `j` if it disabled `j` and none
      otherwise; and every re-enable it scheduled is due one cooldown after
      `now`. */
  ghost predicate RunFlags(p: Pool, now: nat, j: nat, R: RequestResult)
    requires j < |p.keys| && j < |R.pool.keys| && |p.pending| <= |R.pool.pending|
  {
    var d := DisabledBy(R.attempts, j, p.keys[j].errorCount);
    && (R.pool.keys[j].isActive <==> p.keys[j].isActive && !d)
    && TimersFor(Added(p, R.pool), j) == (if d then 1 else 0)
    && (forall t :: |p.pending| <= t < |R.pool.pending| ==> R.pool.pending[t].due == now + CooldownMs)
  }

  lemma {:induction false} NotTriedNotDisabled(attempts: seq<Attempt>, j: nat, c: int)
    requires !Tried(attempts, j)
    ensures !DisabledBy(attempts, j, c)
  {
    if attempts != [] {
      assert attempts[0].key != j;
      assert !Tried(attempts[1..], j) by {
        forall k | 0 <= k < |attempts| - 1 ensures attempts[1..][k].key != j {
          assert attempts[1..][k] == attempts[k + 1];
        }
      }
      NotTriedNotDisabled(attempts[1..], j, c);
    }
  }

  lemma UntriedCons(a: Attempt, rest: seq<Attempt>, j: nat)
    requires a.key != j && !Tried(rest, j)
    ensures !Tried([a] + rest, j)
  {
    forall k | 0 <= k < |rest| + 1 ensures ([a] + rest)[k].key != j {
      if k > 0 {
        assert ([a] + rest)[k] == rest[k - 1];
      }
    }
  }

  /** A key that is inactive when a run starts is never tried by it: every
      round picks an active key, and recording errors on other keys leaves its
      flag alone. */
  lemma {:induction false} RunSkipsInactive(p: Pool, baseUrl: string, endpoint: string, fetch: Fetch, now: nat,
                                            attempt: nat, maxRetries: nat, lastError: string, j: nat)
    requires j < |p.keys| && !p.keys[j].isActive
    ensures !Tried(RunFrom(p, baseUrl, endpoint, fetch, now, attempt, maxRetries, lastError).attempts, j)
    decreases maxRetries - attempt
  {
    var R := RunFrom(p, baseUrl, endpoint, fetch, now, attempt, maxRetries, lastError);
    if attempt < maxRetries && GetNextApiKey(p.keys).Some? {
      var i := GetNextApiKey(p.keys).value;
      var key := p.keys[i];
      var url := RequestUrl(baseUrl, endpoint, key.token);
      var outcome := fetch(attempt, url);
      var a := Attempt(i, url, outcome);
      assert i != j;
      if Succeeds(outcome) || !MovesOn(outcome) {
        assert R.attempts == [a];
      } else {
        var p' := MarkError(p, key.token, ErrorText(outcome), now);
        assert !p'.keys[j].isActive;
        RunSkipsInactive(p', baseUrl, endpoint, fetch, now, attempt + 1, maxRetries, ErrorText(outcome), j);
        var rest := RunFrom(p', baseUrl, endpoint, fetch, now, attempt + 1, maxRetries, ErrorText(outcome));
        assert R.attempts == [a] + rest.attempts;
        UntriedCons(a, rest.attempts, j);
      }
    }
  }

  /** A failed attempt `a` on the key of index `a.key`, recorded in `p'`,
      followed by the run `rest` of the next rounds (possibly none). */
  lemma FlagsCons(p: Pool, p': Pool, now: nat, j: nat, a: Attempt, rest: RequestResult)
    requires j < |p.keys| && a.key < |p.keys| && |p'.keys| == |p.keys| && |rest.pool.keys| == |p.keys|
    requires KeepsKeys(p', rest.pool) && !Succeeds(a.outcome)
    requires var dis := DisablesKey(ErrorText(a.outcome), p.keys[a.key].errorCount + 1);
      && p'.pending == (if dis then p.pending + [Timer(a.key, now + CooldownMs)] else p.pending)
      && (a.key == j ==> p'.keys[j].errorCount == p.keys[j].errorCount + 1
                         && (p'.keys[j].isActive <==> p.keys[j].isActive && !dis))
      && (a.key != j ==> p'.keys[j] == p.keys[j])
    requires !p'.keys[j].isActive ==> !Tried(rest.attempts, j)
    requires RunFlags(p', now, j, rest)
    ensures |p.pending| <= |rest.pool.pending|
    ensures RunFlags(p, now, j, rest.(attempts := [a] + rest.attempts))
  {
    var R := rest.(attempts := [a] + rest.attempts);
    assert R.attempts[0] == a && R.attempts[1..] == rest.attempts;
    var c := p.keys[j].errorCount;
    var c' := p'.keys[j].errorCount;
    assert Added(p, R.pool) == Added(p, p') + Added(p', rest.pool);
    TimersForConcat(Added(p, p'), Added(p', rest.pool), j);
    if a.key == j && DisablesKey(ErrorText(a.outcome), c + 1) {
      NotTriedNotDisabled(rest.attempts, j, c');
      assert Added(p, p') == [Timer(j, now + CooldownMs)];
      assert TimersFor(Added(p, p'), j) == 1;
    } else if a.key == j {
      assert Added(p, p') == [];
    } else {
      assert TimersFor(Added(p, p'), j) == 0;
    }
    forall t | |p.pending| <= t < |R.pool.pending| ensures R.pool.pending[t].due == now + CooldownMs {
      if t < |p'.pending| {
        assert R.pool.pending[t] == p'.pending[t];
      }
    }
  }

  /** With distinct tokens, the flag of every key after a run and the
      re-enables the run scheduled are `RunFlags`: a tried key ends inactive
      exactly when one of its failed attempts met `DisablesKey` at its running
      count (or it was inactive already), and each disabled key gets exactly
      one re-enable, one cooldown after `now`. */
  lemma {:induction false} RunDisables(p: Pool, baseUrl: string, endpoint: string, fetch: Fetch, now: nat,
                                       attempt: nat, maxRetries: nat, lastError: string, j: nat)
    requires DistinctTokens(p.keys) && j < |p.keys|
    ensures var R := RunFrom(p, baseUrl, endpoint, fetch, now, attempt, maxRetries, lastError);
      KeepsKeys(p, R.pool) && RunFlags(p, now, j, R)
    decreases maxRetries - attempt
  {
    var R := RunFrom(p, baseUrl, endpoint, fetch, now, attempt, maxRetries, lastError);
    RunKeepsIdentities(p, baseUrl, endpoint, fetch, now, attempt, maxRetries, lastError);
    if attempt < maxRetries && GetNextApiKey(p.keys).Some? {
      var i := GetNextApiKey(p.keys).value;
      var key := p.keys[i];
      var url := RequestUrl(baseUrl, endpoint, key.token);
      var outcome := fetch(attempt, url);
      var a := Attempt(i, url, outcome);
      FindOwnToken(p.keys, i);
      if Succeeds(outcome) {
        assert R.attempts == [a] && R.pool == MarkSuccess(p, key.token, now);
        assert R.attempts[1..] == [];
        assert Added(p, R.pool) == [];
      } else {
        var p' := MarkError(p, key.token, ErrorText(outcome), now);
        if MovesOn(outcome) {
          assert DistinctTokens(p'.keys);
          RunDisables(p', baseUrl, endpoint, fetch, now, attempt + 1, maxRetries, ErrorText(outcome), j);
          var rest := RunFrom(p', baseUrl, endpoint, fetch, now, attempt + 1, maxRetries, ErrorText(outcome));
          if !p'.keys[j].isActive {
            RunSkipsInactive(p', baseUrl, endpoint, fetch, now, attempt + 1, maxRetries, ErrorText(outcome), j);
          }
          FlagsCons(p, p', now, j, a, rest);
          assert R == rest.(attempts := [a] + rest.attempts);
        } else {
          var rest := RequestResult(p', Rejected(outcome.body, outcome.status, key.email), []);
          assert Added(p', p') == [];
          FlagsCons(p, p', now, j, a, rest);
          assert R == rest.(attempts := [a] + rest.attempts);
        }
      }
    } else {
      assert Added(p, R.pool) == [];
    }
  }

  /** Every run keeps the pool invariant. */
  lemma {:induction false} RunKeepsValid(p: Pool, baseUrl: string, endpoint: string, fetch: Fetch, now: nat,
                                         attempt: nat, maxRetries: nat, lastError: string)
    requires PoolValid(p)
    ensures PoolValid(RunFrom(p, baseUrl, endpoint, fetch, now, attempt, maxRetries, lastError).pool)
    decreases maxRetries - attempt
  {
    if attempt < maxRetries && GetNextApiKey(p.keys).Some? {
      var key := p.keys[GetNextApiKey(p.keys).value];
      var outcome := fetch(attempt, RequestUrl(baseUrl, endpoint, key.token));
      if Succeeds(outcome) {
        MarkSuccessKeepsValid(p, key.token, now);
      } else {
        MarkErrorKeepsValid(p, key.token, ErrorText(outcome), now);
        if MovesOn(outcome) {
          RunKeepsValid(MarkError(p, key.token, ErrorText(outcome), now), baseUrl, endpoint, fetch, now,
                        attempt + 1, maxRetries, ErrorText(outcome));
        }
      }
    }
  }
}
