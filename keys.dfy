/** Credential records of the API-key fallback manager and the pure
    transitions that its private helpers apply to them: recording an error,
    recording a success, running a scheduled re-enable, and the full reset. */
module ApiKeys {

  datatype Option<T> = None | Some(value: T)

  /** One credential record. `lastUsed` is a clock reading in milliseconds,
      `None` when the key has never served a successful request. */
  datatype ApiKey = ApiKey(email: string, token: string, isActive: bool, lastUsed: Option<nat>, errorCount: int)

  /** The configuration a credential starts from. */
  datatype Credential = Credential(email: string, token: string)

  /** A pending re-enable callback: the index of the key it captured and the
      clock reading from which it may run. */
  datatype Timer = Timer(key: nat, due: nat)

  /** The manager's whole mutable state: the key array and the re-enable
      callbacks that were scheduled and have not run yet. */
  datatype Pool = Pool(keys: seq<ApiKey>, pending: seq<Timer>)

  /** Error count from which a key is disabled. */
  const ErrorThreshold: int := 3

  /** Delay before a disabled key is re-enabled: one hour. */
  const CooldownMs: nat := 60 * 60 * 1000

  predicate OccursAt(s: string, sub: string, i: int)
  {
    0 <= i && i + |sub| <= |s| && s[i..i + |sub|] == sub
  }

  /** `s.includes(sub)`. */
  predicate Contains(s: string, sub: string)
  {
    exists i :: 0 <= i <= |s| - |sub| && OccursAt(s, sub, i)
  }

  /** The test that decides whether an error disables the key: the error text
      mentions "495" or "limit", or the incremented count reached the threshold. */
  predicate DisablesKey(error: string, newCount: int)
  {
    Contains(error, "495") || Contains(error, "limit") || newCount >= ErrorThreshold
  }

  ghost predicate HasPendingTimer(p: Pool, i: nat)
  {
    exists t :: 0 <= t < |p.pending| && p.pending[t].key == i
  }

  /** What every reachable state satisfies: counts are never negative, an
      active key has fewer errors than the threshold, every timer refers to a
      key of the array, and every disabled key has a re-enable pending. */
  ghost predicate PoolValid(p: Pool)
  {
    && (forall i :: 0 <= i < |p.keys| ==> p.keys[i].errorCount >= 0)
    && (forall i :: 0 <= i < |p.keys| && p.keys[i].isActive ==> p.keys[i].errorCount < ErrorThreshold)
    && (forall t :: 0 <= t < |p.pending| ==> p.pending[t].key < |p.keys|)
    && (forall i :: 0 <= i < |p.keys| && !p.keys[i].isActive ==> HasPendingTimer(p, i))
  }

  /** Emails and tokens are the same, key by key. */
  ghost predicate SameIdentities(a: seq<ApiKey>, b: seq<ApiKey>)
  {
    |a| == |b| && forall i :: 0 <= i < |a| ==> a[i].email == b[i].email && a[i].token == b[i].token
  }

  ghost predicate DistinctTokens(keys: seq<ApiKey>)
  {
    forall i, j :: 0 <= i < j < |keys| ==> keys[i].token != keys[j].token
  }

  /** The pool as configured: every key active, unused and without errors,
      nothing scheduled. */
  function InitialPool(credentials: seq<Credential>): (p: Pool)
    ensures |p.keys| == |credentials| && p.pending == []
    ensures forall i :: 0 <= i < |credentials| ==>
      p.keys[i] == ApiKey(credentials[i].email, credentials[i].token, true, None, 0)
    ensures PoolValid(p)
  {
    Pool(seq(|credentials|, i requires 0 <= i < |credentials| =>
           ApiKey(credentials[i].email, credentials[i].token, true, None, 0)), [])
  }

  /** `apiKeys.find(key => key.token === token)`, as an index. */
  function FindToken(keys: seq<ApiKey>, token: string): (r: Option<nat>)
    ensures r.Some? ==> r.value < |keys| && keys[r.value].token == token
    ensures r.Some? ==> forall j :: 0 <= j < r.value ==> keys[j].token != token
    ensures r.None? ==> forall j :: 0 <= j < |keys| ==> keys[j].token != token
  {
    if keys == [] then None
    else if keys[0].token == token then Some(0)
    else match FindToken(keys[1..], token)
      case None => None
      case Some(j) => Some(j + 1)
  }

  /** The search only looks at tokens. */
  lemma {:induction false} FindTokenSameIdentities(a: seq<ApiKey>, b: seq<ApiKey>, token: string)
    requires SameIdentities(a, b)
    ensures FindToken(a, token) == FindToken(b, token)
  {
    if a != [] {
      assert SameIdentities(a[1..], b[1..]);
      FindTokenSameIdentities(a[1..], b[1..], token);
    }
  }

  /** With distinct tokens, searching for a key's own token finds that key. */
  lemma FindOwnToken(keys: seq<ApiKey>, i: nat)
    requires DistinctTokens(keys) && i < |keys|
    ensures FindToken(keys, keys[i].token) == Some(i)
  {
  }

  /** `markApiKeyError`: the key whose token matches gets one more error and
      is disabled (with a re-enable scheduled one cooldown from `now`) when
      `DisablesKey` holds; its `lastUsed` is left alone. */
  function MarkError(p: Pool, token: string, error: string, now: nat): (r: Pool)
    ensures SameIdentities(p.keys, r.keys)
    ensures FindToken(p.keys, token).None? ==> r == p
    ensures FindToken(p.keys, token).Some? ==>
      var i := FindToken(p.keys, token).value;
      var disable := DisablesKey(error, p.keys[i].errorCount + 1);
      && r.keys[i].errorCount == p.keys[i].errorCount + 1
      && r.keys[i].lastUsed == p.keys[i].lastUsed
      && (r.keys[i].isActive <==> p.keys[i].isActive && !disable)
      && (forall j :: 0 <= j < |p.keys| && j != i ==> r.keys[j] == p.keys[j])
      && r.pending == (if disable then p.pending + [Timer(i, now + CooldownMs)] else p.pending)
  {
    match FindToken(p.keys, token)
    case None => p
    case Some(i) =>
      var k := p.keys[i].(errorCount := p.keys[i].errorCount + 1);
      if DisablesKey(error, k.errorCount) then
        Pool(p.keys[i := k.(isActive := false)], p.pending + [Timer(i, now + CooldownMs)])
      else
        Pool(p.keys[i := k], p.pending)
  }

  /** Recording an error keeps the invariant: the count only grows from a
      non-negative value, a key that reaches the threshold is disabled, and a
      key that is disabled gets its re-enable scheduled. */
  lemma MarkErrorKeepsValid(p: Pool, token: string, error: string, now: nat)
    requires PoolValid(p)
    ensures PoolValid(MarkError(p, token, error, now))
  {
    var r := MarkError(p, token, error, now);
    if FindToken(p.keys, token).Some? {
      var i := FindToken(p.keys, token).value;
      if DisablesKey(error, p.keys[i].errorCount + 1) {
        assert r.pending[|p.pending|].key == i;
        forall j | 0 <= j < |p.keys| && HasPendingTimer(p, j) ensures HasPendingTimer(r, j) {
          var t :| 0 <= t < |p.pending| && p.pending[t].key == j;
          assert r.pending[t] == p.pending[t];
        }
      }
    }
  }

  /** `q` has the keys of `p`, emails and tokens unchanged, and every
      re-enable pending in `p`, in the same order, possibly followed by more. */
  ghost predicate KeepsKeys(p: Pool, q: Pool)
  {
    && SameIdentities(p.keys, q.keys)
    && |p.pending| <= |q.pending| && q.pending[..|p.pending|] == p.pending
  }

  lemma KeepsKeysTransitive(p: Pool, q: Pool, r: Pool)
    requires KeepsKeys(p, q) && KeepsKeys(q, r)
    ensures KeepsKeys(p, r)
  {
    assert r.pending[..|p.pending|] == r.pending[..|q.pending|][..|p.pending|];
  }

  /** Recording an error cancels no re-enable and changes no identity. */
  lemma MarkErrorKeepsKeys(p: Pool, token: string, error: string, now: nat)
    ensures KeepsKeys(p, MarkError(p, token, error, now))
  {
    var r := MarkError(p, token, error, now);
    assert r.pending[..|p.pending|] == p.pending;
  }

  /** `markApiKeySuccess`: the key whose token matches is stamped with `now`
      and loses one error if it had any. */
  function MarkSuccess(p: Pool, token: string, now: nat): (r: Pool)
    ensures SameIdentities(p.keys, r.keys) && r.pending == p.pending
    ensures FindToken(p.keys, token).None? ==> r == p
    ensures FindToken(p.keys, token).Some? ==>
      var i := FindToken(p.keys, token).value;
      var c := p.keys[i].errorCount;
      && r.keys[i].lastUsed == Some(now)
      && r.keys[i].errorCount == (if c > 0 then c - 1 else c)
      && r.keys[i].isActive == p.keys[i].isActive
      && (forall j :: 0 <= j < |p.keys| && j != i ==> r.keys[j] == p.keys[j])
  {
    match FindToken(p.keys, token)
    case None => p
    case Some(i) =>
      var k := p.keys[i].(lastUsed := Some(now));
      var k' := if k.errorCount > 0 then k.(errorCount := Max(0, k.errorCount - 1)) else k;
      Pool(p.keys[i := k'], p.pending)
  }

  /** Recording a success keeps the invariant; in particular the count stays
      non-negative. */
  lemma MarkSuccessKeepsValid(p: Pool, token: string, now: nat)
    requires PoolValid(p)
    ensures PoolValid(MarkSuccess(p, token, now))
  {
    var r := MarkSuccess(p, token, now);
    assert forall j :: 0 <= j < |p.keys| && HasPendingTimer(p, j) ==> HasPendingTimer(r, j);
  }

  function Max(a: int, b: int): int
  {
    if a < b then b else a
  }

  /** The error count a success leaves is `max(0, count - 1)`: never negative. */
  lemma SuccessFloorsAtZero(p: Pool, token: string, now: nat, i: nat)
    requires PoolValid(p) && FindToken(p.keys, token) == Some(i)
    ensures MarkSuccess(p, token, now).keys[i].errorCount == Max(0, p.keys[i].errorCount - 1)
    ensures p.keys[i].errorCount == 0 ==> MarkSuccess(p, token, now).keys[i].errorCount == 0
  {
  }

  /** The re-enable callback of timer `t`: the captured key becomes active with
      no errors, and the timer is gone. Nothing else changes. */
  function FireTimer(p: Pool, t: nat): (r: Pool)
    requires t < |p.pending| && p.pending[t].key < |p.keys|
    ensures SameIdentities(p.keys, r.keys)
    ensures r.pending == p.pending[..t] + p.pending[t + 1..]
    ensures var i := p.pending[t].key;
      && r.keys[i].isActive && r.keys[i].errorCount == 0
      && r.keys[i].lastUsed == p.keys[i].lastUsed
      && (forall j :: 0 <= j < |p.keys| && j != i ==> r.keys[j] == p.keys[j])
  {
    var i := p.pending[t].key;
    Pool(p.keys[i := p.keys[i].(isActive := true, errorCount := 0)], p.pending[..t] + p.pending[t + 1..])
  }

  /** Running a re-enable keeps the invariant: every other disabled key still
      has its own re-enable pending. */
  lemma FireTimerKeepsValid(p: Pool, t: nat)
    requires PoolValid(p) && t < |p.pending|
    ensures PoolValid(FireTimer(p, t))
  {
    var i := p.pending[t].key;
    var r := FireTimer(p, t);
    forall j | 0 <= j < |p.keys| && j != i && HasPendingTimer(p, j) ensures HasPendingTimer(r, j) {
      var s :| 0 <= s < |p.pending| && p.pending[s].key == j;
      if s < t {
        assert r.pending[s] == p.pending[s];
      } else {
        assert s != t;
        assert r.pending[s - 1] == p.pending[s];
      }
    }
  }

  /** `resetApiKeys`: every key active, without errors and never used; the
      emails and tokens stay, and the pending re-enables are NOT cancelled. */
  function Reset(p: Pool): (r: Pool)
    ensures SameIdentities(p.keys, r.keys) && r.pending == p.pending
    ensures forall i :: 0 <= i < |r.keys| ==>
      r.keys[i].isActive && r.keys[i].errorCount == 0 && r.keys[i].lastUsed.None?
    ensures PoolValid(p) ==> PoolValid(r)
  {
    Pool(seq(|p.keys|, i requires 0 <= i < |p.keys| =>
           p.keys[i].(isActive := true, errorCount := 0, lastUsed := None)), p.pending)
  }

  /** One row of `getApiKeyStatus`: everything but the token. */
  datatype KeyStatus = KeyStatus(email: string, isActive: bool, errorCount: int, lastUsed: Option<nat>)

  /** `getApiKeyStatus` on the key array. */
  function Status(keys: seq<ApiKey>): (r: seq<KeyStatus>)
    ensures |r| == |keys|
    ensures forall i :: 0 <= i < |keys| ==>
      r[i].email == keys[i].email && r[i].isActive == keys[i].isActive &&
      r[i].errorCount == keys[i].errorCount && r[i].lastUsed == keys[i].lastUsed
  {
    seq(|keys|, i requires 0 <= i < |keys| =>
      KeyStatus(keys[i].email, keys[i].isActive, keys[i].errorCount, keys[i].lastUsed))
  }

  /** The status report never depends on the tokens: two key arrays that
      differ only in tokens report the same, so no token is exposed. */
  lemma StatusIgnoresTokens(a: seq<ApiKey>, b: seq<ApiKey>)
    requires |a| == |b|
    requires forall i :: 0 <= i < |a| ==> a[i].(token := b[i].token) == b[i]
    ensures Status(a) == Status(b)
  {
    assert forall i :: 0 <= i < |a| ==> Status(a)[i] == Status(b)[i];
  }

  /** Right after a reset the report shows every key active, without errors
      and never used, under its own email. */
  lemma StatusAfterReset(p: Pool)
    ensures var r := Status(Reset(p).keys);
      && |r| == |p.keys|
      && forall i :: 0 <= i < |r| ==> r[i] == KeyStatus(p.keys[i].email, true, 0, None)
  {
  }

  /** `markApiKeyError` called once per element of `errors`, in order. */
  function MarkErrors(p: Pool, token: string, errors: seq<string>, now: nat): Pool
    decreases |errors|
  {
    if errors == [] then p else MarkErrors(MarkError(p, token, errors[0], now), token, errors[1..], now)
  }

  /** N errors in a row on the same key raise its count by exactly N, never
      touch its `lastUsed`, and leave it disabled once the count reaches the
      threshold. */
  lemma {:induction false} RepeatedErrorsAccumulate(p: Pool, token: string, errors: seq<string>, now: nat, i: nat)
    requires FindToken(p.keys, token) == Some(i)
    ensures var r := MarkErrors(p, token, errors, now);
      && SameIdentities(p.keys, r.keys)
      && r.keys[i].errorCount == p.keys[i].errorCount + |errors|
      && r.keys[i].lastUsed == p.keys[i].lastUsed
      && (errors != [] && p.keys[i].errorCount + |errors| >= ErrorThreshold ==> !r.keys[i].isActive)
    decreases |errors|
  {
    if errors != [] {
      var q := MarkError(p, token, errors[0], now);
      FindTokenSameIdentities(p.keys, q.keys, token);
      RepeatedErrorsAccumulate(q, token, errors[1..], now, i);
      var r := MarkErrors(q, token, errors[1..], now);
      if errors[1..] == [] {
        assert r == q;
      } else if q.keys[i].errorCount + |errors[1..]| < ErrorThreshold {
        assert p.keys[i].errorCount + |errors| < ErrorThreshold;
      }
    }
  }

  /** `resetApiKeys` leaves the re-enables scheduled before it in place: if
      the key is disabled again after the reset, running the OLD timer makes
      it active with no errors while the re-enable of the new disable is still
      pending, that is, before the new cooldown has run out. */
  lemma StaleTimerAfterReset(p: Pool, t: nat, error: string, now: nat)
    requires PoolValid(p) && DistinctTokens(p.keys) && t < |p.pending|
    requires Contains(error, "limit")
    ensures var i := p.pending[t].key;
      var q := MarkError(Reset(p), p.keys[i].token, error, now);
      && !q.keys[i].isActive
      && q.pending == p.pending + [Timer(i, now + CooldownMs)]
      && var r := FireTimer(q, t);
         && r.keys[i].isActive && r.keys[i].errorCount == 0
         && r.pending[|r.pending| - 1] == Timer(i, now + CooldownMs)
  {
    var i := p.pending[t].key;
    var z := Reset(p);
    FindTokenSameIdentities(p.keys, z.keys, p.keys[i].token);
    FindOwnToken(p.keys, i);
    var q := MarkError(z, p.keys[i].token, error, now);
    assert q.pending[t] == p.pending[t];
  }
}
