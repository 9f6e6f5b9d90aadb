/** Choice of the key for the next attempt (`getNextApiKey`): keep the active
    keys, sort them stably with the source's comparator, take the first. */
module Selection {
  import opened ApiKeys

  /** The comparator given to `sort`: negative when `a` is to be tried first.
      Fewer errors first; on equal counts a never-used key comes first, then
      the earlier `lastUsed`. */
  function Compare(a: ApiKey, b: ApiKey): int
  {
    if a.errorCount != b.errorCount then a.errorCount - b.errorCount
    else if a.lastUsed.None? && b.lastUsed.None? then 0
    else if a.lastUsed.None? then -1
    else if b.lastUsed.None? then 1
    else a.lastUsed.value - b.lastUsed.value
  }

  /** Reference order, stated without the comparator: `a` is at least as good
      a candidate as `b`. */
  predicate AtLeastAsGood(a: ApiKey, b: ApiKey)
  {
    || a.errorCount < b.errorCount
    || (a.errorCount == b.errorCount &&
        (a.lastUsed.None? || (b.lastUsed.Some? && a.lastUsed.value <= b.lastUsed.value)))
  }

  /** The comparator is the reference order: `Compare(a, b) <= 0` exactly when
      `a` is at least as good as `b`. */
  lemma CompareIsOrder(a: ApiKey, b: ApiKey)
    ensures Compare(a, b) <= 0 <==> AtLeastAsGood(a, b)
    ensures AtLeastAsGood(a, b) || AtLeastAsGood(b, a)
  {
  }

  lemma AtLeastAsGoodTransitive(a: ApiKey, b: ApiKey, c: ApiKey)
    requires AtLeastAsGood(a, b) && AtLeastAsGood(b, c)
    ensures AtLeastAsGood(a, c)
  {
  }

  ghost predicate ValidIndices(keys: seq<ApiKey>, s: seq<nat>)
  {
    forall k :: 0 <= k < |s| ==> s[k] < |keys|
  }

  ghost predicate Increasing(s: seq<nat>)
  {
    forall k, l :: 0 <= k < l < |s| ==> s[k] < s[l]
  }

  /** `filter(key => key.isActive)` over the first `n` keys, as indices in
      array order. */
  function ActiveBelow(keys: seq<ApiKey>, n: nat): (r: seq<nat>)
    requires n <= |keys|
    ensures ValidIndices(keys, r)
  {
    if n == 0 then []
    else ActiveBelow(keys, n - 1) + (if keys[n - 1].isActive then [n - 1] else [])
  }

  /** The filter keeps exactly the active keys below `n`. */
  lemma {:induction false} ActiveBelowFilters(keys: seq<ApiKey>, n: nat)
    requires n <= |keys|
    ensures forall i :: 0 <= i < n ==> (i in ActiveBelow(keys, n) <==> keys[i].isActive)
  {
    if n > 0 {
      ActiveBelowFilters(keys, n - 1);
      ActiveBelowBounded(keys, n - 1);
    }
  }

  lemma {:induction false} ActiveBelowBounded(keys: seq<ApiKey>, n: nat)
    requires n <= |keys|
    ensures forall k :: 0 <= k < |ActiveBelow(keys, n)| ==> ActiveBelow(keys, n)[k] < n
  {
    if n > 0 {
      ActiveBelowBounded(keys, n - 1);
    }
  }

  /** ... and keeps them in array order. */
  lemma {:induction false} ActiveBelowIncreasing(keys: seq<ApiKey>, n: nat)
    requires n <= |keys|
    ensures Increasing(ActiveBelow(keys, n))
  {
    if n > 0 {
      ActiveBelowIncreasing(keys, n - 1);
      ActiveBelowBounded(keys, n - 1);
    }
  }

  function ActiveIndices(keys: seq<ApiKey>): (r: seq<nat>)
    ensures ValidIndices(keys, r)
  {
    ActiveBelow(keys, |keys|)
  }

  /** Insertion of `x` into `s`, before the first element it is not worse
      than, so that it precedes the equal elements that came after it. */
  function InsertByPriority(keys: seq<ApiKey>, x: nat, s: seq<nat>): (r: seq<nat>)
    requires x < |keys| && ValidIndices(keys, s)
    ensures ValidIndices(keys, r) && |r| == |s| + 1
  {
    if s == [] then [x]
    else if Compare(keys[x], keys[s[0]]) <= 0 then [x] + s
    else [s[0]] + InsertByPriority(keys, x, s[1..])
  }

  lemma {:induction false} InsertPermutes(keys: seq<ApiKey>, x: nat, s: seq<nat>)
    requires x < |keys| && ValidIndices(keys, s)
    ensures multiset(InsertByPriority(keys, x, s)) == multiset(s) + multiset{x}
  {
    if s != [] && Compare(keys[x], keys[s[0]]) > 0 {
      InsertPermutes(keys, x, s[1..]);
      assert s == [s[0]] + s[1..];
    }
  }

  /** Stable sort by `Compare`. */
  function SortByPriority(keys: seq<ApiKey>, s: seq<nat>): (r: seq<nat>)
    requires ValidIndices(keys, s)
    ensures ValidIndices(keys, r) && |r| == |s|
  {
    if s == [] then []
    else InsertByPriority(keys, s[0], SortByPriority(keys, s[1..]))
  }

  /** The sort is a permutation of its input. */
  lemma {:induction false} SortPermutes(keys: seq<ApiKey>, s: seq<nat>)
    requires ValidIndices(keys, s)
    ensures multiset(SortByPriority(keys, s)) == multiset(s)
  {
    if s != [] {
      var tail := SortByPriority(keys, s[1..]);
      SortPermutes(keys, s[1..]);
      InsertPermutes(keys, s[0], tail);
      assert SortByPriority(keys, s) == InsertByPriority(keys, s[0], tail);
      assert s == [s[0]] + s[1..];
      assert multiset(s) == multiset(s[1..]) + multiset{s[0]};
    }
  }

  /** Position `p` of `s` holds an index at least as good as every index of
      `s`, and strictly better than every index at an earlier position. */
  ghost predicate BestAt(keys: seq<ApiKey>, s: seq<nat>, p: nat)
    requires ValidIndices(keys, s)
  {
    && p < |s|
    && (forall q :: 0 <= q < |s| ==> AtLeastAsGood(keys[s[p]], keys[s[q]]))
    && (forall q :: 0 <= q < p ==> !AtLeastAsGood(keys[s[q]], keys[s[p]]))
  }

  lemma InsertHead(keys: seq<ApiKey>, x: nat, s: seq<nat>)
    requires x < |keys| && ValidIndices(keys, s)
    ensures InsertByPriority(keys, x, s)[0] ==
      if s == [] || Compare(keys[x], keys[s[0]]) <= 0 then x else s[0]
  {
  }

  /** The first element of the stable sort sits, in the unsorted input, at a
      position that is a best one with nothing earlier as good: the sort
      brings the earliest of the best to the front. */
  lemma {:induction false} SortHead(keys: seq<ApiKey>, s: seq<nat>) returns (p: nat)
    requires ValidIndices(keys, s) && s != []
    ensures BestAt(keys, s, p) && SortByPriority(keys, s)[0] == s[p]
  {
    var x, rest := s[0], s[1..];
    if rest == [] {
      assert s == [x];
      p := 0;
    } else {
      var tail := SortByPriority(keys, rest);
      assert SortByPriority(keys, s) == InsertByPriority(keys, x, tail);
      InsertHead(keys, x, tail);
      var p' := SortHead(keys, rest);
      CompareIsOrder(keys[x], keys[rest[p']]);
      if Compare(keys[x], keys[rest[p']]) <= 0 {
        p := 0;
        forall q | 0 <= q < |s| ensures AtLeastAsGood(keys[x], keys[s[q]]) {
          if q > 0 {
            assert s[q] == rest[q - 1];
            AtLeastAsGoodTransitive(keys[x], keys[rest[p']], keys[s[q]]);
          }
        }
      } else {
        p := p' + 1;
        forall q | 0 <= q < |s| ensures AtLeastAsGood(keys[s[p]], keys[s[q]]) {
          if q > 0 {
            assert s[q] == rest[q - 1];
          }
        }
        forall q | 0 <= q < p ensures !AtLeastAsGood(keys[s[q]], keys[s[p]]) {
          if q > 0 {
            assert s[q] == rest[q - 1];
          }
        }
      }
    }
  }

  /** `getNextApiKey`: the index of the key the next attempt uses, `None`
      when no key is active. */
  function GetNextApiKey(keys: seq<ApiKey>): (r: Option<nat>)
    ensures r.None? <==> forall i :: 0 <= i < |keys| ==> !keys[i].isActive
    ensures r.Some? ==> r.value < |keys| && keys[r.value].isActive
  {
    var active := ActiveIndices(keys);
    var sorted := SortByPriority(keys, active);
    if |sorted| == 0 then
      ActiveBelowFilters(keys, |keys|);
      None
    else
      SortPermutes(keys, active);
      ActiveBelowFilters(keys, |keys|);
      assert sorted[0] in multiset(active);
      Some(sorted[0])
  }

  /** The best key: active, at least as good as every active key, and
      strictly better than every active key before it in the array. */
  ghost predicate IsBest(keys: seq<ApiKey>, b: nat)
  {
    && b < |keys| && keys[b].isActive
    && (forall j :: 0 <= j < |keys| && keys[j].isActive ==> AtLeastAsGood(keys[b], keys[j]))
    && (forall j :: 0 <= j < b && keys[j].isActive ==> !AtLeastAsGood(keys[j], keys[b]))
  }

  lemma BestIsUnique(keys: seq<ApiKey>, b: nat, c: nat)
    requires IsBest(keys, b) && IsBest(keys, c)
    ensures b == c
  {
  }

  /** When some key is active, the selection is a best key. */
  lemma NextApiKeyIsABest(keys: seq<ApiKey>)
    requires GetNextApiKey(keys).Some?
    ensures IsBest(keys, GetNextApiKey(keys).value)
  {
    var active := ActiveIndices(keys);
    ActiveBelowFilters(keys, |keys|);
    ActiveBelowIncreasing(keys, |keys|);
    var p := SortHead(keys, active);
    var h := active[p];
    assert GetNextApiKey(keys) == Some(h);
    forall j | 0 <= j < |keys| && keys[j].isActive
      ensures AtLeastAsGood(keys[h], keys[j])
      ensures j < h ==> !AtLeastAsGood(keys[j], keys[h])
    {
      var q :| 0 <= q < |active| && active[q] == j;
      assert j < h ==> q < p;
    }
  }

  /** The selection is exactly the best key: fewest errors, then never used,
      then least recently used, then lowest array index. */
  lemma NextApiKeyIsBest(keys: seq<ApiKey>, b: nat)
    ensures GetNextApiKey(keys) == Some(b) <==> IsBest(keys, b)
  {
    if GetNextApiKey(keys).Some? {
      NextApiKeyIsABest(keys);
      if IsBest(keys, b) {
        BestIsUnique(keys, b, GetNextApiKey(keys).value);
      }
    }
  }

  /** In particular the chosen key has the fewest errors of all active keys,
      and if an active key with that count was never used, neither was the
      chosen one. */
  lemma NextApiKeyHasFewestErrors(keys: seq<ApiKey>, j: nat)
    requires j < |keys| && keys[j].isActive
    ensures GetNextApiKey(keys).Some?
    ensures var b := GetNextApiKey(keys).value;
      && keys[b].errorCount <= keys[j].errorCount
      && (keys[b].errorCount == keys[j].errorCount && keys[j].lastUsed.None? ==> keys[b].lastUsed.None?)
  {
    NextApiKeyIsBest(keys, GetNextApiKey(keys).value);
  }
}
