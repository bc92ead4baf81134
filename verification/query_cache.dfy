/**
 * The client's query keys, the two queries' options, and a cache of query
 * results in which invalidating a key prefix marks every key under it stale.
 */
module QueryCache {
  import opened Wrappers

  /** One element of a query key. */
  datatype KeyPart = Name(text: string) | Id(n: int) | Null

  /** A query key: a list of parts, compared element by element. */
  type QueryKey = seq<KeyPart>

  /** `['accounts']`. */
  function AccountsKey(): QueryKey {
    [Name("accounts")]
  }

  /** `['transactions']`, the prefix shared by every transactions key. */
  function TransactionsFamily(): QueryKey {
    [Name("transactions")]
  }

  /** `['transactions', accountId]`; a null or undefined id is the Null part. */
  function TransactionsKey(accountId: Option<int>): (k: QueryKey)
    ensures |k| == 2 && k[0] == Name("transactions")
    ensures TransactionsFamily() <= k
    ensures k[1].Null? <==> accountId.None?
  {
    [Name("transactions"), if accountId.Some? then Id(accountId.value) else Null]
  }

  /** Different filters never share a transactions key. */
  lemma TransactionsKeyInjective(a: Option<int>, b: Option<int>)
    ensures TransactionsKey(a) == TransactionsKey(b) ==> a == b
  {
    if TransactionsKey(a) == TransactionsKey(b) {
      assert TransactionsKey(a)[1] == TransactionsKey(b)[1];
    }
  }

  /** The two families are apart: neither prefix matches a key of the other family. */
  lemma FamiliesDisjoint(accountId: Option<int>)
    ensures !(AccountsKey() <= TransactionsKey(accountId))
    ensures !(TransactionsFamily() <= AccountsKey())
  {
    assert TransactionsKey(accountId)[0] != AccountsKey()[0];
  }

  /** Which client call fetches a query. */
  datatype Fetcher = FetchAccounts | FetchTransactions(accountId: Option<int>)

  /** The options a query is registered with. */
  datatype QueryOptions = QueryOptions(
    key: QueryKey,
    fetch: Fetcher,
    staleTimeMs: int,
    refetchOnWindowFocus: bool,
    retry: nat)

  /** Five minutes, in milliseconds. */
  const StaleTimeMs: int := 5 * 60 * 1000

  /** Failed fetches are retried twice. */
  const RetryBudget: nat := 2

  /** Both queries share one freshness window and retry policy. */
  predicate StandardPolicy(q: QueryOptions) {
    q.staleTimeMs == 300000 && q.refetchOnWindowFocus && q.retry == 2
  }

  /** `useAccounts`: the one-element key `['accounts']`, fetched with no filter. */
  function AccountsQuery(): (q: QueryOptions)
    ensures q.key == [Name("accounts")]
    ensures q.fetch == FetchAccounts
    ensures StandardPolicy(q)
  {
    QueryOptions(AccountsKey(), FetchAccounts, StaleTimeMs, true, RetryBudget)
  }

  /** `useTransactions(accountId)`: one key per filter value; null and undefined both fetch unfiltered. */
  function TransactionsQuery(accountId: Option<int>): (q: QueryOptions)
    ensures q.key == TransactionsKey(accountId)
    ensures q.fetch == FetchTransactions(accountId)
    ensures StandardPolicy(q)
  {
    QueryOptions(TransactionsKey(accountId), FetchTransactions(accountId), StaleTimeMs, true, RetryBudget)
  }

  /** A cached query result: the last value fetched, if any, and whether it is stale. */
  datatype Entry<V> = Entry(data: Option<V>, stale: bool)

  type Cache<V> = map<QueryKey, Entry<V>>

  /** `invalidateQueries({queryKey: prefix})`: every entry whose key starts with `prefix` becomes stale; values are kept. */
  function Invalidate<V>(c: Cache<V>, prefix: QueryKey): (r: Cache<V>)
    ensures r.Keys == c.Keys
    ensures forall k :: k in r ==> r[k].data == c[k].data
    ensures forall k :: k in r ==> (r[k].stale <==> c[k].stale || prefix <= k)
  {
    map k | k in c :: if prefix <= k then c[k].(stale := true) else c[k]
  }

  /** Some prefix in the list starts `k`. */
  predicate MatchesAny(prefixes: seq<QueryKey>, k: QueryKey) {
    exists i :: 0 <= i < |prefixes| && prefixes[i] <= k
  }

  /** Invalidates each prefix in turn. */
  function InvalidateAll<V>(c: Cache<V>, prefixes: seq<QueryKey>): (r: Cache<V>)
    ensures r.Keys == c.Keys
    ensures forall k :: k in r ==> r[k].data == c[k].data
    ensures forall k :: k in r ==> (r[k].stale <==> c[k].stale || MatchesAny(prefixes, k))
  {
    if |prefixes| == 0 then c
    else
      var r := Invalidate(InvalidateAll(c, prefixes[..|prefixes| - 1]), prefixes[|prefixes| - 1]);
      assert forall k :: MatchesAny(prefixes, k) <==>
        MatchesAny(prefixes[..|prefixes| - 1], k) || prefixes[|prefixes| - 1] <= k by {
        forall k
          ensures MatchesAny(prefixes, k) ==> MatchesAny(prefixes[..|prefixes| - 1], k) || prefixes[|prefixes| - 1] <= k
        {
          if MatchesAny(prefixes, k) {
            var i :| 0 <= i < |prefixes| && prefixes[i] <= k;
            if i < |prefixes| - 1 {
              assert prefixes[..|prefixes| - 1][i] == prefixes[i];
            }
          }
        }
      }
      r
  }

  /** Invalidating nothing leaves the cache as it was. */
  lemma InvalidateNothing<V>(c: Cache<V>)
    ensures InvalidateAll(c, []) == c
  {
  }

  /** A successful fetch of `key` stores `v` as a fresh value. */
  function Refetched<V>(c: Cache<V>, key: QueryKey, v: V): (r: Cache<V>)
    ensures key in r && r[key] == Entry(Some(v), false)
    ensures r.Keys == c.Keys + {key}
    ensures forall k :: k in c && k != key ==> r[k] == c[k]
  {
    c[key := Entry(Some(v), false)]
  }

  /** Reading a cached key. */
  function Read<V>(c: Cache<V>, key: QueryKey): Option<Entry<V>> {
    if key in c then Some(c[key]) else None
  }

  /**
   * Re-fetching one view after an invalidation freshens that view only: every
   * other cached key under the prefix still shows its previous value, stale.
   */
  lemma RefetchFreshensOnlyItsKey<V>(c: Cache<V>, prefix: QueryKey, key: QueryKey, other: QueryKey, v: V)
    requires prefix <= key && prefix <= other && other in c && other != key
    ensures Read(Refetched(Invalidate(c, prefix), key, v), key) == Some(Entry(Some(v), false))
    ensures Read(Refetched(Invalidate(c, prefix), key, v), other) == Some(Entry(c[other].data, true))
  {
  }

  /** Between the invalidation and the re-fetch, a cached key keeps showing its previous value, now stale. */
  lemma InvalidatedKeepsValue<V>(c: Cache<V>, prefix: QueryKey, key: QueryKey)
    requires key in c && prefix <= key
    ensures Read(Invalidate(c, prefix), key) == Some(Entry(c[key].data, true))
  {
  }
}
