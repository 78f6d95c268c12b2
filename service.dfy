/**
 * The service class `LaravelCloudflare`: a cache store it reads and writes in place, the
 * three cache keys and the TTL it is configured with, and the GETs it has sent. Every
 * method is proved against the matching function of CacheModel, whose properties are
 * proved there.
 */
module Service {
  import opened Wrappers
  import opened Fetcher
  import opened LineParsing
  import opened RangeMerge
  import opened CacheModel

  class LaravelCloudflare {
    const keyV4: string
    const keyV6: string
    const keyAll: string
    /** The configured TTL in seconds; None stores forever. */
    const ttl: Option<Ttl>
    /** The contents of the cache store. */
    var cache: Store
    /** Every GET sent to an upstream, in order. */
    ghost var Requests: seq<Family>

    function Settings(): Config {
      Config(keyV4, keyV6, keyAll, ttl)
    }

    /** Keys and TTL come from configuration; the store may already hold entries. */
    constructor (keyV4: string, keyV6: string, keyAll: string, ttl: Option<Ttl>, cache: Store)
      ensures Settings() == Config(keyV4, keyV6, keyAll, ttl)
      ensures this.cache == cache && Requests == []
    {
      this.keyV4, this.keyV6, this.keyAll, this.ttl := keyV4, keyV6, keyAll, ttl;
      this.cache := cache;
      Requests := [];
    }

    /** `$cache->get($key, $default)`: the stored value, or the default for a missing key. */
    function Get(key: string, default: Value): (v: Value)
      reads this
      ensures key in cache ==> v == cache[key].value
      ensures key !in cache ==> v == default
    {
      if key in cache then cache[key].value else default
    }

    /** `put`: `forever` when the TTL is null, `put` with the TTL otherwise. */
    method Put(key: string, value: seq<string>, ttl: Option<Ttl>)
      modifies this`cache
      ensures cache == CacheModel.Put(old(cache), key, value, ttl)
    {
      if ttl.None? {
        cache := cache[key := Entry(Ranges(value), Forever)];
      } else {
        cache := cache[key := Entry(Ranges(value), Seconds(ttl.value))];
      }
    }

    /** `fetchFromEndpoint`: no GET for an unusable endpoint, the empty list for a non-2xx
        response, otherwise the parsed body. */
    method FetchFromEndpoint(family: Family, net: Network) returns (ranges: seq<string>)
      modifies this`Requests
      ensures ranges == FetchRanges(net.For(family))
      ensures Requests == old(Requests) + RequestsFor(family, net.For(family))
    {
      var up := net.For(family);
      if !up.Requested() {
        return [];
      }
      Requests := Requests + [family];
      if !Successful(up.response) {
        return [];
      }
      ranges := ParseBody(up.response.body);
    }

    /** `remember`: answers a present key from the store, otherwise runs the resolver and
        stores its result. */
    method Remember(key: string, resolver: Resolver, net: Network) returns (r: Outcome)
      modifies this`cache, this`Requests
      ensures var read := CacheModel.Remember(Settings(), old(cache), key, resolver, FetchesOf(net));
              r == read.result && cache == read.store && Requests == old(Requests) + read.requests
      decreases resolver.Rank(), 2
    {
      if key in cache {
        match cache[key].value
        case Ranges(list) => return Success(list);
        case Scalar => return Failure(TypeError(key));
      }
      r := RunResolver(resolver, net);
      if r.Success? {
        Put(key, r.value, ttl);
      }
    }

    /** The bodies of the closures handed to `remember`. */
    method RunResolver(resolver: Resolver, net: Network) returns (r: Outcome)
      modifies this`cache, this`Requests
      ensures var read := Resolve(Settings(), old(cache), resolver, FetchesOf(net));
              r == read.result && cache == read.store && Requests == old(Requests) + read.requests
      decreases resolver.Rank(), 1
    {
      match resolver
      case FetchFamily(family) =>
        var ranges := FetchFromEndpoint(family, net);
        r := Success(ranges);
      case MergeFamilies =>
        ghost var read4 := CacheModel.Remember(Settings(), cache, keyV4, FetchFamily(IPv4), FetchesOf(net));
        ghost var before := Requests;
        var v4 := Ipv4(net);
        if v4.Failure? {
          return v4;
        }
        ghost var read6 := CacheModel.Remember(Settings(), read4.store, keyV6, FetchFamily(IPv6), FetchesOf(net));
        var v6 := Ipv6(net);
        assert Requests == before + (read4.requests + read6.requests);
        if v6.Failure? {
          return v6;
        }
        r := Success(MergeUnique(v4.value, v6.value));
    }

    /** `ipv4()`. */
    method Ipv4(net: Network) returns (r: Outcome)
      modifies this`cache, this`Requests
      ensures var read := ReadFamily(Settings(), old(cache), IPv4, FetchesOf(net));
              r == read.result && cache == read.store && Requests == old(Requests) + read.requests
      decreases 0, 3
    {
      r := Remember(keyV4, FetchFamily(IPv4), net);
    }

    /** `ipv6()`. */
    method Ipv6(net: Network) returns (r: Outcome)
      modifies this`cache, this`Requests
      ensures var read := ReadFamily(Settings(), old(cache), IPv6, FetchesOf(net));
              r == read.result && cache == read.store && Requests == old(Requests) + read.requests
      decreases 0, 3
    {
      r := Remember(keyV6, FetchFamily(IPv6), net);
    }

    /** `all()`. */
    method All(net: Network) returns (r: Outcome)
      modifies this`cache, this`Requests
      ensures var read := ReadAll(Settings(), old(cache), FetchesOf(net));
              r == read.result && cache == read.store && Requests == old(Requests) + read.requests
      decreases 1, 3
    {
      r := Remember(keyAll, MergeFamilies, net);
    }

    /** `refresh()`: fetch both families, keep a family's cached list when its fetch is
        empty, then write the v4, v6 and all keys. */
    method Refresh(net: Network)
      modifies this`cache, this`Requests
      ensures cache == CacheModel.Refresh(Settings(), old(cache), FetchesOf(net)).store
      ensures Requests == old(Requests) + RequestsFor(IPv4, net.v4) + RequestsFor(IPv6, net.v6)
    {
      ghost var s, c := cache, Settings();
      var newV4 := FetchFromEndpoint(IPv4, net);
      var newV6 := FetchFromEndpoint(IPv6, net);
      var currentV4 := Get(keyV4, Ranges([]));
      var currentV6 := Get(keyV6, Ranges([]));
      var finalV4 := if newV4 != [] then newV4 else (if currentV4.Ranges? then currentV4.list else []);
      var finalV6 := if newV6 != [] then newV6 else (if currentV6.Ranges? then currentV6.list else []);
      assert finalV4 == Chosen(FetchRanges(net.v4), s, c.keyV4);
      assert finalV6 == Chosen(FetchRanges(net.v6), s, c.keyV6);
      Put(keyV4, finalV4, ttl);
      Put(keyV6, finalV6, ttl);
      Put(keyAll, MergeUnique(finalV4, finalV6), ttl);
    }
  }
}
