/**
 * The cache behaviour of the service as functions of the store's contents: the
 * cache-aside reads `ipv4`, `ipv6` and `all` (through `remember`), the writes (`put`) and
 * `refresh`. The store is a map from key to entry; a missing key stands for both an absent
 * key and a stored null, which Laravel's cache treats alike.
 */
module CacheModel {
  import opened Wrappers
  import opened Fetcher
  import opened RangeMerge

  /** What a key can hold: a list of ranges, or some other non-null value (a scalar
      written under the key by someone else). */
  datatype Value = Ranges(list: seq<string>) | Scalar

  /** How long an entry lives: `forever` or `put` with a TTL in seconds. Expiry itself
      happens in the store and is not modelled. */
  datatype Lifetime = Forever | Seconds(ttl: nat)

  datatype Entry = Entry(value: Value, lifetime: Lifetime)

  type Store = map<string, Entry>

  /** A TTL in whole seconds. Laravel's `put` with a TTL of zero or less deletes the key
      instead of writing it; such TTLs are outside the model. */
  type Ttl = n: nat | n > 0 witness 1

  /** The configured TTL decides the store call: null means `forever`. */
  function LifetimeOf(ttl: Option<Ttl>): Lifetime {
    if ttl.None? then Forever else Seconds(ttl.value)
  }

  /** The configuration the service reads: the three cache keys and the TTL. */
  datatype Config = Config(keyV4: string, keyV6: string, keyAll: string, ttl: Option<Ttl>) {
    function KeyOf(family: Family): string {
      match family
      case IPv4 => keyV4
      case IPv6 => keyV6
    }

    function Keys(): set<string> {
      {keyV4, keyV6, keyAll}
    }

    predicate DistinctKeys() {
      keyV4 != keyV6 && keyV4 != keyAll && keyV6 != keyAll
    }
  }

  /** The shipped defaults: the three keys and a TTL of 24 hours. */
  const DefaultConfig := Config("cloudflare:ips:v4", "cloudflare:ips:v6", "cloudflare:ips", Some(60 * 60 * 24))

  /** `remember` is declared to return an array: a non-array hit raises a TypeError. */
  datatype TypeError = TypeError(key: string)

  type Outcome = Result<seq<string>, TypeError>

  /** The closures handed to `remember`: fetch one family, or merge `ipv4()` and `ipv6()`. */
  datatype Resolver = FetchFamily(family: Family) | MergeFamilies {
    function Rank(): nat {
      if MergeFamilies? then 1 else 0
    }
  }

  /** The result of a read, the store afterwards and the GETs it sent, in order. */
  datatype Read = Read(result: Outcome, store: Store, requests: seq<Family>)

  /** `put`: `forever` when the TTL is null, `put` with the TTL otherwise. The list is
      written under `key`, permanently exactly when the TTL is null, and no other key
      changes. */
  function Put(s: Store, key: string, ranges: seq<string>, ttl: Option<Ttl>): (s': Store)
    ensures s'.Keys == s.Keys + {key}
    ensures s'[key].value == Ranges(ranges)
    ensures s'[key].lifetime.Forever? <==> ttl.None?
    ensures ttl.Some? ==> s'[key].lifetime == Seconds(ttl.value)
    ensures forall k :: k in s && k != key ==> s'[k] == s[k]
  {
    s[key := Entry(Ranges(ranges), LifetimeOf(ttl))]
  }

  /** What `remember` returns on a hit: the stored list, or a TypeError for a non-list. */
  function Hit(s: Store, key: string): (outcome: Outcome)
    requires key in s
    ensures outcome.Success? <==> s[key].value.Ranges?
    ensures outcome.Success? ==> outcome.value == s[key].value.list
    ensures outcome.Failure? ==> outcome.error.key == key
  {
    match s[key].value
    case Ranges(list) => Success(list)
    case Scalar => Failure(TypeError(key))
  }

  /** `remember` / `rememberForever`: a present key is answered from the store without
      running the resolver (no write, no GET); a missing key runs the resolver and stores
      what it returns under `key` with the configured lifetime. */
  function Remember(c: Config, s: Store, key: string, resolver: Resolver, net: Fetches): (r: Read)
    ensures key in s ==> r == Read(Hit(s, key), s, [])
    ensures key !in s ==>
              var resolved := Resolve(c, s, resolver, net);
              && r.result == resolved.result
              && r.requests == resolved.requests
              && (r.result.Failure? ==> r.store == resolved.store)
    ensures key !in s && r.result.Success? ==>
              key in r.store && r.store[key] == Entry(Ranges(r.result.value), LifetimeOf(c.ttl))
    decreases resolver.Rank(), 1
  {
    if key in s then Read(Hit(s, key), s, [])
    else
      var resolved := Resolve(c, s, resolver, net);
      if resolved.result.Failure? then resolved
      else Read(resolved.result, Put(resolved.store, key, resolved.result.value, c.ttl), resolved.requests)
  }

  /** Running a resolver. Fetching one family writes nothing and returns what the fetch
      gave, with its GETs; merging reads both families through their own `remember` calls,
      IPv4 first, passes on an exception from either, and returns a list without
      duplicates. */
  function Resolve(c: Config, s: Store, resolver: Resolver, net: Fetches): (r: Read)
    ensures resolver.FetchFamily? ==>
              var fetched := net.For(resolver.family);
              r == Read(Success(fetched.ranges), s, fetched.requests)
    ensures resolver.MergeFamilies? && r.result.Success? ==> NoDuplicates(r.result.value)
    decreases resolver.Rank(), 0
  {
    match resolver
    case FetchFamily(family) =>
      Read(Success(net.For(family).ranges), s, net.For(family).requests)
    case MergeFamilies =>
      var v4 := Remember(c, s, c.keyV4, FetchFamily(IPv4), net);
      if v4.result.Failure? then v4
      else
        var v6 := Remember(c, v4.store, c.keyV6, FetchFamily(IPv6), net);
        var requests := v4.requests + v6.requests;
        if v6.result.Failure? then Read(v6.result, v6.store, requests)
        else Read(Success(MergeUnique(v4.result.value, v6.result.value)), v6.store, requests)
  }

  /** `ipv4()` / `ipv6()`: a present key is answered from the store; a missing key gets
      what the family's fetch gave, stored under the key with the configured lifetime,
      after that fetch's GETs. */
  function ReadFamily(c: Config, s: Store, family: Family, net: Fetches): (r: Read)
    ensures var key := c.KeyOf(family);
            key in s ==> r == Read(Hit(s, key), s, [])
    ensures var key, fetched := c.KeyOf(family), net.For(family);
            key !in s ==> r == Read(Success(fetched.ranges), Put(s, key, fetched.ranges, c.ttl), fetched.requests)
  {
    Remember(c, s, c.KeyOf(family), FetchFamily(family), net)
  }

  /** `all()`: a present key is answered from the store; on a miss a successful result
      holds no duplicates and is stored under the all key with the configured lifetime. */
  function ReadAll(c: Config, s: Store, net: Fetches): (r: Read)
    ensures c.keyAll in s ==> r == Read(Hit(s, c.keyAll), s, [])
    ensures c.keyAll !in s && r.result.Success? ==>
              && NoDuplicates(r.result.value)
              && c.keyAll in r.store
              && r.store[c.keyAll] == Entry(Ranges(r.result.value), LifetimeOf(c.ttl))
  {
    Remember(c, s, c.keyAll, MergeFamilies, net)
  }

  /** `cache->get(key, [])` followed by the is_array test: the list a family falls back to
      when its fetch comes back empty; the empty list when the key is missing or holds a
      non-list. */
  function Kept(s: Store, key: string): (kept: seq<string>)
    ensures key in s && s[key].value.Ranges? ==> kept == s[key].value.list
    ensures kept != [] ==> key in s && s[key].value == Ranges(kept)
  {
    if key in s && s[key].value.Ranges? then s[key].value.list else []
  }

  /** The list refresh writes for one family: the fetched one unless it is empty. */
  function Chosen(fetched: seq<string>, s: Store, key: string): (chosen: seq<string>)
    ensures fetched != [] ==> chosen == fetched
    ensures chosen == fetched || chosen == Kept(s, key)
    ensures chosen == [] <==> fetched == [] && Kept(s, key) == []
  {
    if fetched != [] then fetched else Kept(s, key)
  }

  datatype Refreshed = Refreshed(store: Store, requests: seq<Family>)

  /** `refresh`: fetches both families, keeps a family's cached list when its fetch is
      empty, then writes the v4, v6 and all keys, in that order. It sends the GETs of both
      fetches, v4 first, writes exactly those three keys, each as a list with the configured
      lifetime, and changes no other key. */
  function Refresh(c: Config, s: Store, net: Fetches): (r: Refreshed)
    ensures r.store.Keys == s.Keys + c.Keys()
    ensures forall k :: k in s && k !in c.Keys() ==> r.store[k] == s[k]
    ensures forall k :: k in c.Keys() ==>
              r.store[k].value.Ranges? && r.store[k].lifetime == LifetimeOf(c.ttl)
    ensures r.requests == net.v4.requests + net.v6.requests
  {
    var v4 := Chosen(net.v4.ranges, s, c.keyV4);
    var v6 := Chosen(net.v6.ranges, s, c.keyV6);
    var s1 := Put(s, c.keyV4, v4, c.ttl);
    var s2 := Put(s1, c.keyV6, v6, c.ttl);
    Refreshed(Put(s2, c.keyAll, MergeUnique(v4, v6), c.ttl),
              net.v4.requests + net.v6.requests)
  }

  // ---------------------------------------------------------------------------
  // Properties of refresh
  // ---------------------------------------------------------------------------

  /** Each family's key ends up holding the fetched list when it is non-empty and the list
      cached before otherwise. */
  lemma RefreshFamily(c: Config, s: Store, net: Fetches, family: Family)
    requires c.DistinctKeys()
    ensures var key, fetched := c.KeyOf(family), net.For(family).ranges;
            Refresh(c, s, net).store[key].value
              == Ranges(if fetched != [] then fetched else Kept(s, key))
  {
  }

  /** A failed fetch never erases cached data: a family whose fetch is empty keeps its
      cached list, and a non-empty cached list stays non-empty whatever the fetch gives. */
  lemma RefreshNeverErases(c: Config, s: Store, net: Fetches, family: Family)
    requires c.DistinctKeys()
    ensures var key, s' := c.KeyOf(family), Refresh(c, s, net).store;
            && (net.For(family).ranges == [] ==> Kept(s', key) == Kept(s, key))
            && (Kept(s, key) != [] ==> Kept(s', key) != [])
  {
    RefreshFamily(c, s, net, family);
  }

  /** After a refresh the all key holds the merge of what the v4 and v6 keys hold. */
  lemma RefreshAllIsMerge(c: Config, s: Store, net: Fetches)
    requires c.DistinctKeys()
    ensures var s' := Refresh(c, s, net).store;
            s'[c.keyAll].value == Ranges(MergeUnique(Kept(s', c.keyV4), Kept(s', c.keyV6)))
  {
    RefreshFamily(c, s, net, IPv4);
    RefreshFamily(c, s, net, IPv6);
  }

  /** Refreshing twice with the same responses leaves the same cache as refreshing once. */
  lemma RefreshIdempotent(c: Config, s: Store, net: Fetches)
    requires c.DistinctKeys()
    ensures var once := Refresh(c, s, net).store;
            Refresh(c, once, net).store == once
  {
    var once := Refresh(c, s, net).store;
    var life := LifetimeOf(c.ttl);
    var v4 := Chosen(net.v4.ranges, s, c.keyV4);
    var v6 := Chosen(net.v6.ranges, s, c.keyV6);
    RefreshFamily(c, s, net, IPv4);
    RefreshFamily(c, s, net, IPv6);
    assert once[c.keyV4] == Entry(Ranges(v4), life);
    assert once[c.keyV6] == Entry(Ranges(v6), life);
    assert once[c.keyAll] == Entry(Ranges(MergeUnique(v4, v6)), life);
    assert Chosen(net.v4.ranges, once, c.keyV4) == v4;
    assert Chosen(net.v6.ranges, once, c.keyV6) == v6;
    PutUnchanged(once, c.keyV4, v4, c.ttl);
    PutUnchanged(once, c.keyV6, v6, c.ttl);
    PutUnchanged(once, c.keyAll, MergeUnique(v4, v6), c.ttl);
  }

  /** Writing the entry a key already holds changes nothing. */
  lemma PutUnchanged(s: Store, key: string, ranges: seq<string>, ttl: Option<Ttl>)
    requires key in s && s[key] == Entry(Ranges(ranges), LifetimeOf(ttl))
    ensures Put(s, key, ranges, ttl) == s
  {
  }

  /** After a refresh every read is a cache hit whatever the network does: `ipv4()` and
      `ipv6()` return the stored lists, `all()` returns their merge, and nothing is
      written or fetched. */
  lemma ReadsAfterRefresh(c: Config, s: Store, net: Fetches, later: Fetches, family: Family)
    requires c.DistinctKeys()
    ensures var s' := Refresh(c, s, net).store;
            && ReadFamily(c, s', family, later) == Read(Success(Kept(s', c.KeyOf(family))), s', [])
            && ReadAll(c, s', later)
                 == Read(Success(MergeUnique(Kept(s', c.keyV4), Kept(s', c.keyV6))), s', [])
  {
    RefreshAllIsMerge(c, s, net);
  }

  // ---------------------------------------------------------------------------
  // Properties of the cache-aside reads
  // ---------------------------------------------------------------------------

  /** `all()` on a cold cache: `ipv4()` and `ipv6()` each fetch and fill their own key, and
      the merge of the two fetched lists is returned and stored under the all key. */
  lemma ColdAll(c: Config, s: Store, net: Fetches)
    requires c.DistinctKeys()
    requires c.keyV4 !in s && c.keyV6 !in s && c.keyAll !in s
    ensures var v4, v6 := net.v4.ranges, net.v6.ranges;
            var merged := MergeUnique(v4, v6);
            ReadAll(c, s, net)
              == Read(Success(merged),
                      Put(Put(Put(s, c.keyV4, v4, c.ttl), c.keyV6, v6, c.ttl), c.keyAll, merged, c.ttl),
                      net.v4.requests + net.v6.requests)
  {
  }

  /** `all()` on a missing all key, whatever the family keys hold: `ipv4()` runs first, and
      its TypeError is passed on as is; otherwise `ipv6()` runs on the store `ipv4()` left,
      its TypeError is passed on, and when both return lists their merge is returned and
      stored under the all key. The GETs are those of `ipv4()` followed by `ipv6()`'s. */
  lemma AllMergesFamilies(c: Config, s: Store, net: Fetches)
    requires c.keyAll !in s
    ensures var v4 := ReadFamily(c, s, IPv4, net);
            var v6 := ReadFamily(c, v4.store, IPv6, net);
            var all := ReadAll(c, s, net);
            && (v4.result.Failure? ==> all == v4)
            && (v4.result.Success? && v6.result.Failure? ==>
                  all == Read(v6.result, v6.store, v4.requests + v6.requests))
            && (v4.result.Success? && v6.result.Success? ==>
                  var merged := MergeUnique(v4.result.value, v6.result.value);
                  all == Read(Success(merged), Put(v6.store, c.keyAll, merged, c.ttl),
                              v4.requests + v6.requests))
  {
  }

  /** A cold read whose fetch fails stores the empty list, and from then on that key is
      answered with the empty list without a GET, however the upstream recovers. */
  lemma ColdFailedReadCachesEmpty(c: Config, s: Store, net: Fetches, later: Fetches, family: Family)
    requires c.KeyOf(family) !in s
    requires net.For(family).ranges == []
    ensures var first := ReadFamily(c, s, family, net);
            && first.result == Success([])
            && ReadFamily(c, first.store, family, later) == Read(Success([]), first.store, [])
  {
  }

  /** A read only ever adds the keys it resolves and never changes another present key. */
  lemma {:induction false} RememberOnlyAdds(c: Config, s: Store, key: string, resolver: Resolver, net: Fetches)
    ensures var r := Remember(c, s, key, resolver, net);
            && s.Keys <= r.store.Keys
            && forall k :: k in s ==> r.store[k] == s[k]
    decreases resolver.Rank(), 1
  {
    if key !in s {
      ResolveOnlyAdds(c, s, resolver, net);
    }
  }

  lemma {:induction false} ResolveOnlyAdds(c: Config, s: Store, resolver: Resolver, net: Fetches)
    ensures var r := Resolve(c, s, resolver, net);
            && s.Keys <= r.store.Keys
            && forall k :: k in s ==> r.store[k] == s[k]
    decreases resolver.Rank(), 0
  {
    if resolver.MergeFamilies? {
      var v4 := Remember(c, s, c.keyV4, FetchFamily(IPv4), net);
      RememberOnlyAdds(c, s, c.keyV4, FetchFamily(IPv4), net);
      if v4.result.Success? {
        RememberOnlyAdds(c, v4.store, c.keyV6, FetchFamily(IPv6), net);
      }
    }
  }
}
