/**
 * The behaviour the package's feature tests describe, stated for the responses those
 * tests fake and proved from the model. Each lemma holds for every prior cache content
 * and every later network, which is what "no stray request" asks of a cache hit.
 */
module Scenarios {
  import opened Wrappers
  import opened LineParsing
  import opened RangeMerge
  import opened Fetcher
  import opened CacheModel

  const V4Body := "1.1.1.1/32\n# comment\n\n10.0.0.0/8"
  const V6Body := "2606:4700::/32\n# comment"

  const V4Ranges := ["1.1.1.1/32", "10.0.0.0/8"]
  const V6Ranges := ["2606:4700::/32"]

  /** Both Cloudflare endpoints answering 200 with the given bodies. */
  function Cloudflare(v4Body: string, v6Body: string): Network {
    Network(Upstream(Some("https://www.cloudflare.com/ips-v4"), Response(200, v4Body)),
            Upstream(Some("https://www.cloudflare.com/ips-v6"), Response(200, v6Body)))
  }

  /** The shipped configuration with the TTL the test sets. */
  const TestConfig := DefaultConfig.(ttl := Some(60))

  const V4Lines := ["1.1.1.1/32", "# comment", "", "10.0.0.0/8"]
  const V6Lines := ["2606:4700::/32", "# comment"]

  /** Lines that ParseJoined accepts: none holds a line feed, and none but the last ends
      in a carriage return. */
  predicate SeparateLines(lines: seq<string>) {
    && |lines| >= 1
    && (forall k :: 0 <= k < |lines| ==> '\n' !in lines[k])
    && (forall k :: 0 <= k < |lines| - 1 ==> DropCarriageReturn(lines[k]) == lines[k])
  }

  lemma V4BodyJoined()
    ensures JoinLines(V4Lines) == V4Body && IsTrimmed(V4Body)
  {
    assert JoinLines(V4Lines[3..]) == "10.0.0.0/8";
    assert JoinLines(V4Lines[2..]) == "\n10.0.0.0/8";
  }

  lemma V4LinesSeparate()
    ensures SeparateLines(V4Lines)
  {
  }

  lemma V6BodyJoined()
    ensures JoinLines(V6Lines) == V6Body && IsTrimmed(V6Body)
  {
    assert JoinLines(V6Lines[1..]) == "# comment";
  }

  lemma V6LinesSeparate()
    ensures SeparateLines(V6Lines)
  {
  }

  lemma CleanV4Lines()
    ensures CleanLines(V4Lines) == V4Ranges
  {
    TrimOfTrimmed(V4Lines[0]);
    TrimOfTrimmed(V4Lines[1]);
    TrimOfTrimmed(V4Lines[3]);
    assert CleanLines(V4Lines[3..]) == [V4Lines[3]];
    assert CleanLines(V4Lines[2..]) == [V4Lines[3]];
    assert CleanLines(V4Lines[1..]) == [V4Lines[3]];
  }

  lemma CleanV6Lines()
    ensures CleanLines(V6Lines) == V6Ranges
  {
    TrimOfTrimmed(V6Lines[0]);
    TrimOfTrimmed(V6Lines[1]);
    assert CleanLines(V6Lines[1..]) == [];
  }

  /** Comments and blank lines are dropped, the ranges kept in order. */
  lemma ParseV4Body()
    ensures ParseBody(V4Body) == V4Ranges
  {
    V4BodyJoined();
    V4LinesSeparate();
    ParseJoined(V4Lines);
    CleanV4Lines();
  }

  lemma ParseV6Body()
    ensures ParseBody(V6Body) == V6Ranges
  {
    V6BodyJoined();
    V6LinesSeparate();
    ParseJoined(V6Lines);
    CleanV6Lines();
  }

  /** The shipped cache keys are three different keys. */
  lemma DefaultKeysDistinct()
    ensures DefaultConfig.DistinctKeys() && TestConfig.DistinctKeys()
  {
    var c := DefaultConfig;
    assert c.keyV4[16] != c.keyV6[16];
    assert |c.keyV4| != |c.keyAll| && |c.keyV6| != |c.keyAll|;
  }

  /** The test ranges hold no repeats and no range of both families, so merging them is
      concatenating them. */
  lemma MergeTestRanges()
    ensures MergeUnique(V4Ranges, V6Ranges) == V4Ranges + V6Ranges
  {
    assert V4Ranges[0][1] != V4Ranges[1][1];
    assert V4Ranges[0][0] != V6Ranges[0][0] && V4Ranges[1][0] != V6Ranges[0][0];
    MergeDisjoint(V4Ranges, V6Ranges);
  }

  /** Bodies with nothing but the ranges, one per line, parse back to those ranges. */
  lemma ParseBareBodies()
    ensures ParseBody(JoinLines(V4Ranges)) == V4Ranges
    ensures ParseBody(JoinLines(V6Ranges)) == V6Ranges
  {
    assert IsEntry(V4Ranges[0]) && IsEntry(V4Ranges[1]) && IsEntry(V6Ranges[0]);
    ParseJoinRoundTrip(V4Ranges);
    ParseJoinRoundTrip(V6Ranges);
  }

  /** What fetching from a network that serves these lists yields: the lists, and one
      GET per family. */
  const Answered := Fetches(Fetched(V4Ranges, [IPv4]), Fetched(V6Ranges, [IPv6]))

  /** What fetching from failing endpoints yields: nothing, after one GET each. */
  const Failed := Fetches(Fetched([], [IPv4]), Fetched([], [IPv6]))

  /** The bodies of the refresh test parse to the test ranges. */
  lemma FetchCloudflare()
    ensures FetchesOf(Cloudflare(V4Body, V6Body)) == Answered
  {
    ParseV4Body();
    ParseV6Body();
  }

  /** An explicit refresh fetches both lists once; afterwards ipv4(), ipv6() and all()
      return the parsed lists and their merge from the cache, whatever the network does
      then, with no GET and no write. */
  lemma RefreshThenRead(s: Store, later: Fetches)
    ensures var r := Refresh(TestConfig, s, Answered);
            && r.requests == [IPv4, IPv6]
            && ReadFamily(TestConfig, r.store, IPv4, later) == Read(Success(V4Ranges), r.store, [])
            && ReadFamily(TestConfig, r.store, IPv6, later) == Read(Success(V6Ranges), r.store, [])
            && ReadAll(TestConfig, r.store, later) == Read(Success(V4Ranges + V6Ranges), r.store, [])
  {
    var c := TestConfig;
    DefaultKeysDistinct();
    MergeTestRanges();
    RefreshFamily(c, s, Answered, IPv4);
    RefreshFamily(c, s, Answered, IPv6);
    ReadsAfterRefresh(c, s, Answered, later, IPv4);
    ReadsAfterRefresh(c, s, Answered, later, IPv6);
  }

  /** The same ranges as bare bodies, the way the fallback test serves them. */
  function Served(): Network {
    Cloudflare(JoinLines(V4Ranges), JoinLines(V6Ranges))
  }

  /** Both endpoints answering 500 with an empty body. */
  function Failing(): Network {
    Network(Upstream(Some("https://www.cloudflare.com/ips-v4"), Response(500, "")),
            Upstream(Some("https://www.cloudflare.com/ips-v6"), Response(500, "")))
  }

  /** Bare bodies parse to the same ranges. */
  lemma FetchServed()
    ensures FetchesOf(Served()) == Answered
  {
    ParseBareBodies();
  }

  /** Failing endpoints give nothing, after a GET each. */
  lemma FetchFailing()
    ensures FetchesOf(Failing()) == Failed
  {
  }

  /** A refresh whose fetches fail keeps what the previous refresh cached: the cache is
      left exactly as it was and all() still returns the merged list. */
  lemma FailedRefreshKeepsCache(s: Store, later: Fetches)
    ensures var first := Refresh(DefaultConfig, s, Answered).store;
            var second := Refresh(DefaultConfig, first, Failed).store;
            && second == first
            && ReadAll(DefaultConfig, second, later).result == Success(V4Ranges + V6Ranges)
  {
    var c := DefaultConfig;
    var first := Refresh(c, s, Answered).store;
    DefaultKeysDistinct();
    MergeTestRanges();
    RefreshFamily(c, s, Answered, IPv4);
    RefreshFamily(c, s, Answered, IPv6);
    RefreshFamily(c, first, Failed, IPv4);
    RefreshFamily(c, first, Failed, IPv6);
    RefreshIdempotent(c, s, Answered);
    assert Refresh(c, first, Failed) == Refresh(c, first, Answered).(requests := [IPv4, IPv6]);
    ReadsAfterRefresh(c, s, Answered, later, IPv4);
  }

  /** all() on a cache holding none of the three keys fetches both lists and returns their
      merge. */
  lemma ColdAllReturnsMerge(s: Store)
    requires DefaultConfig.keyV4 !in s && DefaultConfig.keyV6 !in s && DefaultConfig.keyAll !in s
    ensures var r := ReadAll(DefaultConfig, s, Answered);
            r.result == Success(V4Ranges + V6Ranges) && r.requests == [IPv4, IPv6]
  {
    DefaultKeysDistinct();
    MergeTestRanges();
    ColdAll(DefaultConfig, s, Answered);
  }
}
