/** The `ApiKeyManager` object: a fixed array of key records updated in
    place, and the re-enable callbacks it has scheduled. Each method is
    proved against the pure transition of the `ApiKeys` and `Requests`
    modules, and keeps the pool invariant. */
module ApiFallback {
  import opened ApiKeys
  import opened Selection
  import opened Requests

  class ApiKeyManager {
    /** The key records; the array itself is never replaced. */
    const apiKeys: array<ApiKey>
    /** Re-enable callbacks scheduled and not yet run, in scheduling order. */
    var pending: seq<Timer>
    const baseUrl: string

    ghost function Model(): Pool
      reads this, apiKeys
    {
      Pool(apiKeys[..], pending)
    }

    ghost predicate Valid()
      reads this, apiKeys
    {
      PoolValid(Model())
    }

    /** A manager over the given credentials, all active and unused. */
    constructor(baseUrl: string, credentials: seq<Credential>)
      ensures this.baseUrl == baseUrl && fresh(apiKeys)
      ensures Model() == InitialPool(credentials) && Valid()
    {
      this.baseUrl := baseUrl;
      var keys := new ApiKey[|credentials|](i requires 0 <= i < |credentials| =>
        ApiKey(credentials[i].email, credentials[i].token, true, None, 0));
      apiKeys := keys;
      pending := [];
    }

    /** `markApiKeyError(token, error)`, `now` being the clock reading at
        which a re-enable is scheduled. */
    method MarkApiKeyError(token: string, error: string, now: nat)
      modifies this, apiKeys
      ensures Model() == MarkError(old(Model()), token, error, now)
      ensures old(Valid()) ==> Valid()
    {
      if Valid() {
        MarkErrorKeepsValid(Model(), token, error, now);
      }
      var found := FindToken(apiKeys[..], token);
      if found.Some? {
        var i := found.value;
        var key := apiKeys[i].(errorCount := apiKeys[i].errorCount + 1);
        apiKeys[i] := key;
        if DisablesKey(error, key.errorCount) {
          apiKeys[i] := key.(isActive := false);
          pending := pending + [Timer(i, now + CooldownMs)];
        }
      }
    }

    /** `markApiKeySuccess(token)` at clock reading `now`. */
    method MarkApiKeySuccess(token: string, now: nat)
      modifies apiKeys
      ensures Model() == MarkSuccess(old(Model()), token, now)
      ensures old(Valid()) ==> Valid()
    {
      if Valid() {
        MarkSuccessKeepsValid(Model(), token, now);
      }
      var found := FindToken(apiKeys[..], token);
      if found.Some? {
        var i := found.value;
        var key := apiKeys[i].(lastUsed := Some(now));
        if key.errorCount > 0 {
          key := key.(errorCount := Max(0, key.errorCount - 1));
        }
        apiKeys[i] := key;
      }
    }

    /** The re-enable callback of pending timer `t`, run by the event loop at
        clock reading `now`: it runs only once its delay has passed. */
    method Reactivate(t: nat, now: nat) returns (fired: bool)
      requires Valid()
      modifies this, apiKeys
      ensures fired <==> t < |old(pending)| && old(pending)[t].due <= now
      ensures fired ==> Model() == FireTimer(old(Model()), t)
      ensures !fired ==> Model() == old(Model())
      ensures Valid()
    {
      fired := t < |pending| && pending[t].due <= now;
      if fired {
        FireTimerKeepsValid(Model(), t);
        var i := pending[t].key;
        apiKeys[i] := apiKeys[i].(isActive := true, errorCount := 0);
        pending := pending[..t] + pending[t + 1..];
      }
    }

    /** `makeRequest(endpoint)`, the network being `fetch` and the clock
        reading `now` for the whole call. */
    method MakeRequest(endpoint: string, fetch: Fetch, now: nat) returns (response: ApiResponse)
      requires Valid()
      modifies this, apiKeys
      ensures Model() == Run(old(Model()), baseUrl, endpoint, fetch, now).pool
      ensures response == Run(old(Model()), baseUrl, endpoint, fetch, now).response
      ensures Valid()
    {
      ghost var goal := Run(Model(), baseUrl, endpoint, fetch, now);
      var maxRetries := apiKeys.Length;
      var lastError := "";
      for attempt := 0 to maxRetries
        invariant Valid()
        invariant EndsAs(Model(), baseUrl, endpoint, fetch, now, attempt, maxRetries, lastError, goal)
      {
        ghost var p, recorded := Model(), lastError;
        RunStepStops(p, baseUrl, endpoint, fetch, now, attempt, maxRetries, lastError, goal);
        var next := GetNextApiKey(apiKeys[..]);
        if next.None? {
          return Unavailable();
        }
        var apiKey := apiKeys[next.value];
        var url := RequestUrl(baseUrl, endpoint, apiKey.token);
        var outcome := fetch(attempt, url);
        match outcome {
          case Response(status, body) =>
            if IsOk(status) {
              MarkApiKeySuccess(apiKey.token, now);
              return Served(body, apiKey.email);
            }
            lastError := body;
            MarkApiKeyError(apiKey.token, lastError, now);
            if status == RateLimitStatus || Contains(body, "limit") {
              RunStepMovesOn(p, baseUrl, endpoint, fetch, now, attempt, maxRetries, recorded, next.value, goal);
              continue;
            }
            return Rejected(body, status, apiKey.email);
          case Thrown(message) =>
            lastError := message;
            MarkApiKeyError(apiKey.token, lastError, now);
            RunStepMovesOn(p, baseUrl, endpoint, fetch, now, attempt, maxRetries, recorded, next.value, goal);
        }
      }
      return AllFailed(lastError);
    }

    /** `getApiKeyStatus()`. */
    function GetApiKeyStatus(): (r: seq<KeyStatus>)
      reads this, apiKeys
      ensures r == Status(Model().keys)
    {
      Status(apiKeys[..])
    }

    /** `resetApiKeys()`: one record at a time; the scheduled re-enables are
        left as they are. */
    method ResetApiKeys()
      modifies apiKeys
      ensures Model() == Reset(old(Model()))
      ensures old(Valid()) ==> Valid()
    {
      ghost var before := Model();
      for i := 0 to apiKeys.Length
        invariant forall j :: 0 <= j < i ==> apiKeys[j] == Reset(before).keys[j]
        invariant forall j :: i <= j < apiKeys.Length ==> apiKeys[j] == before.keys[j]
      {
        apiKeys[i] := apiKeys[i].(isActive := true, errorCount := 0, lastUsed := None);
      }
      assert apiKeys[..] == Reset(before).keys;
    }
  }
}
