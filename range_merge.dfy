/**
 * `array_values(array_unique(array_merge($v4, $v6)))`: the "all" list. array_unique keeps
 * the first occurrence of every string and array_values renumbers, so the result is the
 * concatenation with every repeat of an earlier string dropped.
 */
module RangeMerge {

  predicate NoDuplicates(s: seq<string>) {
    forall i, j :: 0 <= i < j < |s| ==> s[i] != s[j]
  }

  function Elements(s: seq<string>): set<string> {
    set x | x in s
  }

  /** array_unique over `s` when the strings in `seen` already occurred earlier: keeps every
      first occurrence, in order. The result has no duplicates and holds exactly the
      strings of `s` that are not in `seen`. */
  function DedupeFrom(s: seq<string>, seen: set<string>): (r: seq<string>)
    ensures NoDuplicates(r)
    ensures Elements(r) == Elements(s) - seen
    ensures |r| <= |s|
    decreases |s|
  {
    if s == [] then []
    else
      assert Elements(s) == {s[0]} + Elements(s[1..]) by {
        assert s == [s[0]] + s[1..];
      }
      if s[0] in seen then DedupeFrom(s[1..], seen)
      else
        var rest := DedupeFrom(s[1..], seen + {s[0]});
        var r := [s[0]] + rest;
        assert forall k :: 0 <= k < |rest| ==> rest[k] in Elements(rest);
        assert forall k :: 1 <= k < |r| ==> r[k] == rest[k - 1];
        assert Elements(r) == {s[0]} + Elements(rest) by {
          forall x | x in r ensures x in {s[0]} + Elements(rest) {
            var k :| 0 <= k < |r| && r[k] == x;
          }
        }
        r
  }

  /** array_values(array_unique(s)). */
  function Dedupe(s: seq<string>): (r: seq<string>)
    ensures NoDuplicates(r) && Elements(r) == Elements(s)
  {
    DedupeFrom(s, {})
  }

  /** The "all" list: the IPv4 list and the IPv6 list merged, repeats dropped. It holds no
      duplicates and exactly the strings of both lists. */
  function MergeUnique(v4: seq<string>, v6: seq<string>): (all: seq<string>)
    ensures NoDuplicates(all)
    ensures Elements(all) == Elements(v4) + Elements(v6)
    ensures |all| <= |v4| + |v6|
  {
    Dedupe(v4 + v6)
  }

  /** De-duplicating a concatenation: the second part is de-duplicated against everything
      the first part holds. */
  lemma {:induction false} DedupeFromAppend(a: seq<string>, b: seq<string>, seen: set<string>)
    ensures DedupeFrom(a + b, seen) == DedupeFrom(a, seen) + DedupeFrom(b, seen + Elements(a))
    decreases |a|
  {
    if a == [] {
      assert a + b == b;
      assert seen + Elements(a) == seen;
    } else {
      assert (a + b)[0] == a[0];
      assert (a + b)[1..] == a[1..] + b;
      if a[0] in seen {
        DedupeFromAppend(a[1..], b, seen);
        assert seen + Elements(a[1..]) == seen + Elements(a) by {
          assert Elements(a) == {a[0]} + Elements(a[1..]) by {
            assert a == [a[0]] + a[1..];
          }
        }
      } else {
        DedupeFromAppend(a[1..], b, seen + {a[0]});
        assert seen + {a[0]} + Elements(a[1..]) == seen + Elements(a) by {
          assert Elements(a) == {a[0]} + Elements(a[1..]) by {
            assert a == [a[0]] + a[1..];
          }
        }
      }
    }
  }

  /** IPv4 entries first: the merge is the de-duplicated IPv4 list followed by the IPv6
      entries that are not IPv4 entries, themselves de-duplicated. */
  lemma MergeIpv4First(v4: seq<string>, v6: seq<string>)
    ensures MergeUnique(v4, v6) == Dedupe(v4) + DedupeFrom(v6, Elements(v4))
  {
    DedupeFromAppend(v4, v6, {});
    assert {} + Elements(v4) == Elements(v4);
  }

  /** The split point of the merge: its first |Dedupe(v4)| entries are exactly the IPv4
      strings and the rest exactly the IPv6 strings that are not IPv4 strings. */
  lemma MergeSections(v4: seq<string>, v6: seq<string>)
    ensures var all, n := MergeUnique(v4, v6), |Dedupe(v4)|;
            n <= |all|
            && Elements(all[..n]) == Elements(v4)
            && Elements(all[n..]) == Elements(v6) - Elements(v4)
  {
    MergeIpv4First(v4, v6);
    var all, n := MergeUnique(v4, v6), |Dedupe(v4)|;
    assert all[..n] == Dedupe(v4);
    assert all[n..] == DedupeFrom(v6, Elements(v4));
  }

  /** A list without duplicates, none of whose strings was seen before, passes unchanged. */
  lemma {:induction false} DedupeFromDistinct(s: seq<string>, seen: set<string>)
    requires NoDuplicates(s)
    requires Elements(s) !! seen
    ensures DedupeFrom(s, seen) == s
    decreases |s|
  {
    if s != [] {
      assert s[0] in Elements(s);
      assert s[0] !in Elements(s[1..]);
      DedupeFromDistinct(s[1..], seen + {s[0]});
      assert s == [s[0]] + s[1..];
    }
  }

  /** Disjoint duplicate-free inputs merge to their plain concatenation. */
  lemma MergeDisjoint(v4: seq<string>, v6: seq<string>)
    requires NoDuplicates(v4) && NoDuplicates(v6)
    requires Elements(v4) !! Elements(v6)
    ensures MergeUnique(v4, v6) == v4 + v6
  {
    MergeIpv4First(v4, v6);
    DedupeFromDistinct(v4, {});
    DedupeFromDistinct(v6, Elements(v4));
  }

  /** A duplicate-free IPv4 list is an exact prefix of the merge. */
  lemma MergeKeepsIpv4Prefix(v4: seq<string>, v6: seq<string>)
    requires NoDuplicates(v4)
    ensures |v4| <= |MergeUnique(v4, v6)| && MergeUnique(v4, v6)[..|v4|] == v4
  {
    MergeIpv4First(v4, v6);
    DedupeFromDistinct(v4, {});
  }

  /** array_unique is idempotent. */
  lemma DedupeIdempotent(s: seq<string>)
    ensures Dedupe(Dedupe(s)) == Dedupe(s)
  {
    DedupeFromDistinct(Dedupe(s), {});
  }

  /** Reference definition built from the other end: a string is kept exactly when it does
      not occur earlier in the list. */
  function FirstOccurrences(s: seq<string>): seq<string> {
    if s == [] then []
    else
      var init, last := s[..|s| - 1], s[|s| - 1];
      FirstOccurrences(init) + (if last in init then [] else [last])
  }

  /** array_unique keeps exactly the first occurrences, in their original order. */
  lemma {:induction false} DedupeIsFirstOccurrences(s: seq<string>)
    ensures Dedupe(s) == FirstOccurrences(s)
    decreases |s|
  {
    if s != [] {
      var init, last := s[..|s| - 1], s[|s| - 1];
      assert s == init + [last];
      DedupeFromAppend(init, [last], {});
      DedupeIsFirstOccurrences(init);
      assert {} + Elements(init) == Elements(init);
      assert [last][1..] == [];
      assert last in Elements(init) <==> last in init;
    }
  }
}
