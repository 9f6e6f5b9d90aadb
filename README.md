# ApiKeyManager: verified model of the API-key fallback manager

The manager holds a fixed array of credential records for a rate-limited
HTTP data API. Each record has an email, a token, an active flag, an
optional last-used time and an error count. Every request goes through
`makeRequest`, which runs rounds, at most one per record:

1. Pick the best active key. Fewest errors wins; on a tie, a never-used key
   beats a used one, then the earlier last use wins, then the lower array
   index (the sort is stable).
2. Fetch the URL with that key's token.
3. On a 2xx answer, record a success and return the payload.
4. On an exception, or an error answer with status 495 or a body mentioning
   "limit", record an error and go to the next round.
5. On any other error answer, record an error and return it as it is.

Recording an error raises the count. It disables the key when the error text
mentions "495" or "limit", or when the count reaches 3. Disabling schedules a
re-enable one hour later, which sets the key active with no errors. Recording
a success stamps the last-used time and lowers the count by one, never below
zero. `getApiKeyStatus` reports every record without its token.
`resetApiKeys` restores every record to active, unused and error-free.

The project has five modules:

- `ApiKeys` (`keys.dfy`): the records, the pool of records plus pending
  re-enable timers, and the pure transitions. These are recording an error,
  recording a success, running a re-enable, reset and the status report.
  Each comes with the lemma that it keeps the pool invariant `PoolValid`:
  - counts are never negative;
  - an active key has fewer than 3 errors;
  - every timer names a key of the array;
  - every disabled key has a re-enable pending.
- `Selection` (`selection.dfy`): the comparator, the active filter, a
  stable insertion sort, and `GetNextApiKey`. A lemma proves the selection
  is exactly the best key under a comparator-free reference order.
- `Requests` (`requests.dfy`): the retry loop as a function `RunFrom` of
  the pool and of the network's answers. Lemmas cover the shape of the
  attempts, the answer, the per-key accounting, the bound on attempts and
  the invariant.
- `ApiFallback` (`manager.dfy`): class `ApiKeyManager`, with the records in
  an `array` updated in place, the pending timers in a field, and one method
  per operation. Each method is proved against the pure transition, and
  `MakeRequest` is a `for` loop with `continue`, as in the source.
- `Scenarios` (`scenarios.dfy`): runs on small pools with any emails and
  any distinct tokens. Where a scenario needs an error that does not disable
  a key by its text, it takes any error text that names neither "495" nor
  "limit":
  - fallback past rate-limit answers;
  - the same key tried twice in one call;
  - an abort on a plain error;
  - a pool with no active key;
  - a pool with no keys.

The network is a parameter `fetch: (attempt, url) -> Outcome`. An outcome is
either an HTTP answer (status and body) or a thrown message. The clock is a
natural number `now`, passed to each call. The re-enable `setTimeout` is a
pending `Timer(key, due)`, and the environment runs it by calling
`Reactivate` once `due` has passed.

The model follows the code in these places, where a reader might expect
otherwise:

- A failed attempt does not stamp `lastUsed`: `markApiKeyError` never
  touches it.
- A call makes at most one attempt per round, and there are as many rounds
  as records. A key can be retried within one call if it is still the best
  after its own failure (`SameKeyRetried`). The rounds do not guarantee one
  try per key.
- The status never disables a key; the error text or the count does. A 495
  answer makes the call move on. If its body names neither "495" nor
  "limit", the key stays active as long as its new count is below 3
  (`FallbackPastRateLimit`).
- `resetApiKeys` cancels no timer. An old timer still fires after a reset
  and re-enables a key that a new error has disabled again, while the new
  re-enable is still pending (`StaleTimerAfterReset`). In that situation two
  timers are pending for the same key.

## Model

| member | source | states |
|---|---|---|
| ApiKeys.InitialPool | lib/api-fallback.ts:21-47 | the configured pool: one record per credential, active, never used, no errors, no timer; it satisfies the pool invariant |
| ApiKeys.FindToken | lib/api-fallback.ts:73 | `find` by token: an index whose token matches with no earlier match, or none when no record has that token |
| ApiKeys.FindTokenSameIdentities | lib/api-fallback.ts:73 | the search depends only on the tokens, so it finds the same record before and after any change to counts or flags |
| ApiKeys.FindOwnToken | lib/api-fallback.ts:73 | with distinct tokens, searching for a record's token finds that record |
| ApiKeys.MarkError | lib/api-fallback.ts:72-90 | the matching record gets exactly one more error and keeps its `lastUsed`; it becomes inactive iff the text contains "495" or "limit" or the new count is at least 3; a re-enable one hour from now is scheduled iff it was disabled; all other records are unchanged; no match changes nothing |
| ApiKeys.MarkErrorKeepsValid | lib/api-fallback.ts:75-88 | recording an error keeps the pool invariant (a key reaching 3 errors is disabled and gets its re-enable) |
| ApiKeys.MarkErrorKeepsKeys | lib/api-fallback.ts:72-90 | recording an error changes no email or token and only appends to the pending timers |
| ApiKeys.MarkSuccess | lib/api-fallback.ts:95-104 | the matching record is stamped with now and loses one error if it had any, and its active flag is kept; other records and timers are unchanged; no match changes nothing |
| ApiKeys.MarkSuccessKeepsValid | lib/api-fallback.ts:95-104 | recording a success keeps the pool invariant |
| ApiKeys.SuccessFloorsAtZero | lib/api-fallback.ts:100-102 | the count after a success is max(0, count - 1), and a count of 0 stays 0 |
| ApiKeys.FireTimer | lib/api-fallback.ts:83-87 | the re-enable makes its key active with no errors, keeps its `lastUsed`, touches no other record and removes only that timer |
| ApiKeys.FireTimerKeepsValid | lib/api-fallback.ts:83-87 | running a re-enable keeps the pool invariant |
| ApiKeys.Reset | lib/api-fallback.ts:196-203 | every record active, with 0 errors, never used, same length, emails and tokens; the pending timers are the same; the invariant is kept |
| ApiKeys.Status | lib/api-fallback.ts:184-191 | one row per record, in array order, with its email, flag, count and `lastUsed` |
| ApiKeys.StatusIgnoresTokens | lib/api-fallback.ts:184-191 | the report does not depend on tokens: pools that differ only in tokens report the same |
| ApiKeys.StatusAfterReset | lib/api-fallback.ts:196-203 | after a reset the report shows every email active, with 0 errors, never used |
| ApiKeys.RepeatedErrorsAccumulate | lib/api-fallback.ts:72-90 | N errors in a row on a record raise its count by exactly N, never touch its `lastUsed`, and leave it disabled once the count reaches 3 |
| ApiKeys.StaleTimerAfterReset | lib/api-fallback.ts:196-203 | a timer scheduled before a reset, run after the key has been disabled again, re-enables it while the new re-enable is still pending |
| Selection.CompareIsOrder | lib/api-fallback.ts:56-64 | the comparator says "not after" exactly when the first key has fewer errors, or as many and was never used or used no later; any two keys are comparable |
| Selection.AtLeastAsGoodTransitive | lib/api-fallback.ts:56-64 | that order is transitive |
| Selection.ActiveBelowFilters | lib/api-fallback.ts:55 | the filter keeps exactly the indices of active records |
| Selection.ActiveBelowIncreasing | lib/api-fallback.ts:55 | the filter keeps array order |
| Selection.InsertPermutes | lib/api-fallback.ts:54-64 | insertion adds exactly the inserted index |
| Selection.SortPermutes | lib/api-fallback.ts:54-64 | the sort is a permutation of its input |
| Selection.SortHead | lib/api-fallback.ts:54-64 | the first element of the sort is at least as good as every element, and strictly better than every element before it in the input (stability) |
| Selection.GetNextApiKey | lib/api-fallback.ts:52-67 | none exactly when no record is active; otherwise an active record's index |
| Selection.NextApiKeyIsABest | lib/api-fallback.ts:52-67 | when some record is active, the selection is at least as good as every active record and strictly better than every earlier active one |
| Selection.BestIsUnique | lib/api-fallback.ts:54-66 | there is at most one best key under that definition |
| Selection.NextApiKeyIsBest | lib/api-fallback.ts:52-67 | the selection is `b` if and only if `b` is the best key: active, fewest errors, then never used, then least recently used, then lowest index |
| Selection.NextApiKeyHasFewestErrors | lib/api-fallback.ts:54-66 | the selected key has the fewest errors of all active keys and is never used if some active key with that count is |
| Requests.RunKeepsIdentities | lib/api-fallback.ts:109-179 | a call changes no email or token and cancels no pending re-enable |
| Requests.RunShape | lib/api-fallback.ts:113-171 | attempt k is made in round k, with the token of a record of the pool in the URL, and gets the network's answer for that round and URL; every attempt but the last moved on; there are no more attempts than rounds |
| Requests.RunFirstAttempt | lib/api-fallback.ts:112-157 | the first attempt is made only if a round is left, on the key `getNextApiKey` picks, which is active and the best key of the pool; after an attempt that moves on, the remaining attempts, the final pool and the answer are those of the next round's run on the pool with that error recorded, so every attempt uses the best key of its round |
| Requests.RunAttemptsBounded | lib/api-fallback.ts:110-113 | a call makes at most as many attempts as there are records |
| Requests.RunResponse | lib/api-fallback.ts:116-178 | the call succeeds iff its last attempt got a 2xx answer, and then returns that body with the serving key's email; an error that does not move on is returned with its status, body and email; a run that moves on past the last round answers "All API keys failed. Last error: " with the last error text, and one with no active key left answers "All API keys are currently unavailable"; no attempt means nothing changed |
| Requests.RunUnavailable | lib/api-fallback.ts:116-122 | the "unavailable" answer is given only when no record is active |
| Requests.AllFailedIsNotUnavailable | lib/api-fallback.ts:174-178 | the two 503 answers are always distinguishable |
| Requests.RunAccounting | lib/api-fallback.ts:137-171 | each record's count grows by one per failed attempt on it and drops by one, if positive, when it serves the success; its `lastUsed` changes only when it serves the success; a record never tried ends exactly as it was |
| Requests.RunSkipsInactive | lib/api-fallback.ts:113-114 | a record that is inactive when the call starts is never tried during it |
| Requests.RunDisables | lib/api-fallback.ts:72-90 | a record ends inactive exactly when it was inactive or one of its failed attempts met the disabling test at its running count; the call schedules one re-enable for each record it disabled and none for any other, each due one hour after now |
| Requests.RunKeepsValid | lib/api-fallback.ts:109-179 | a call keeps the pool invariant |
| ApiFallback.ApiKeyManager.constructor | lib/api-fallback.ts:45-47 | the manager starts from the configured pool, with the given base URL and a fresh array |
| ApiFallback.ApiKeyManager.MarkApiKeyError | lib/api-fallback.ts:72-90 | the in-place update yields exactly `MarkError` of the old state and keeps the invariant |
| ApiFallback.ApiKeyManager.MarkApiKeySuccess | lib/api-fallback.ts:95-104 | the in-place update yields exactly `MarkSuccess` of the old state and keeps the invariant |
| ApiFallback.ApiKeyManager.Reactivate | lib/api-fallback.ts:83-87 | a pending timer runs only when its delay has passed, and then the state is `FireTimer` of the old one; otherwise nothing changes |
| ApiFallback.ApiKeyManager.MakeRequest | lib/api-fallback.ts:109-179 | the loop leaves the state and returns the answer of `Run` on the state before the call, and keeps the invariant |
| ApiFallback.ApiKeyManager.GetApiKeyStatus | lib/api-fallback.ts:184-191 | the report is `Status` of the current records, read without changing anything |
| ApiFallback.ApiKeyManager.ResetApiKeys | lib/api-fallback.ts:196-203 | the record-by-record loop yields exactly `Reset` of the old state |
| Scenarios.FallbackPastRateLimit | lib/api-fallback.ts:147-157 | three fresh keys whose first two rounds answer 495 with a plain body: the third key serves the success, and the first two each show one error and stay active |
| Scenarios.SameKeyRetried | lib/api-fallback.ts:110-114 | two keys, the second with two errors, every attempt throwing: the first key is tried in both rounds, the second never, and the call answers "All API keys failed" with the message |
| Scenarios.OtherErrorStops | lib/api-fallback.ts:159-165 | a plain error answer from the first key ends the call at once with that status and body; only that key is charged |
| Scenarios.NoActiveKeyNoFetch | lib/api-fallback.ts:114-122 | with no active key, no fetch is made, nothing changes and the answer is "unavailable" |
| Scenarios.NoKeysAllFailed | lib/api-fallback.ts:174-178 | with no records there is no round, and the answer is "All API keys failed" with an empty last error |

## Left out

- The real `fetch`, request options and header merging, `response.json()`
  and `response.text()` are replaced by the `fetch` parameter. A body or
  payload that cannot be read or parsed throws inside the `try`, so it is a
  `Thrown` outcome. A payload is kept as its body text.
- `console.log` output is not modelled.
- The `error instanceof Error ? message : 'Unknown error'` choice is not
  modelled: a thrown outcome carries the message the code would record.
- The `setTimeout` timer is not run: it is a pending `Timer`, and the
  environment runs it by calling `Reactivate`. When timers fire relative to
  calls is up to the caller, but no timer fires between two rounds of one
  `makeRequest`. In the source one can, at the `await`s of the fetch, the
  `json()` and the `text()` (lib/api-fallback.ts:128, 138 and 148). A
  re-enable there can change the key that the next round picks.
- `Date` is a natural-number clock reading, one per call: time does not
  advance during one `makeRequest`. Readings are not required to grow from
  one call to the next, since the wall clock that `new Date()` reads can
  also be set back.
- Concurrent callers interleaving at the `await` points are not modelled:
  calls are sequential.
- The hard-coded credential list is replaced by the constructor's
  `credentials` parameter, with opaque tokens. Reading the base URL from the
  environment and the exported singleton are not modelled.
- `errorCount` is an unbounded integer; JavaScript numbers are exact at these
  sizes.
- Requests.RunAccounting, Requests.RunDisables: stated only for pools whose
  tokens are distinct.
  With duplicate tokens, `find` charges the first record with that token.
  `MarkError` and `MarkSuccess` model this, but the lemma does not describe
  it.
