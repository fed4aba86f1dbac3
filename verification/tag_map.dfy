/**
 The grouping of taggings by tag name: from the taggings response, build the
 map from each tag name to the feed ids tagged with it, in response order,
 with repeats kept.

 The specification is `TagMapOf`, a map comprehension over the names that
 occur, each sent to `FeedsFor` of that name. The methods at the end build
 the same map one tagging at a time, as the program does.
 */
module TagMap {
  import opened Feedbin

  type FeedList = seq<u64>

  /** The feed ids of the taggings named `name`, in the order the taggings come. */
  function FeedsFor(ts: seq<Tagging>, name: string): FeedList
  {
    if ts == [] then []
    else (if ts[0].name == name then [ts[0].feedId] else []) + FeedsFor(ts[1..], name)
  }

  /** Every tag name that some tagging carries. */
  function Names(ts: seq<Tagging>): set<string>
  {
    set t | t in ts :: t.name
  }

  /** The tag map the taggings `ts` should produce. */
  function TagMapOf(ts: seq<Tagging>): map<string, FeedList>
  {
    map name | name in Names(ts) :: FeedsFor(ts, name)
  }

  /** The number of feed ids stored in the tag map, summed over all its lists. */
  ghost function TotalFeeds(m: map<string, FeedList>): nat
    decreases |m|
  {
    if m == map[] then 0
    else
      var k :| k in m;
      assert (m - {k}).Keys == m.Keys - {k};
      |m[k]| + TotalFeeds(m - {k})
  }

  // ---------------------------------------------------------------------------
  // FeedsFor: order, multiplicity, membership

  /** Grouping respects concatenation: the lists keep response order. */
  lemma {:induction false} FeedsForAppend(xs: seq<Tagging>, ys: seq<Tagging>, name: string)
    ensures FeedsFor(xs + ys, name) == FeedsFor(xs, name) + FeedsFor(ys, name)
  {
    if xs == [] {
      assert xs + ys == ys;
    } else {
      assert (xs + ys)[1..] == xs[1..] + ys;
      FeedsForAppend(xs[1..], ys, name);
    }
  }

  /** Appending one tagging adds its feed id to its own name's list, and to no other. */
  lemma FeedsForSnoc(ts: seq<Tagging>, t: Tagging, name: string)
    ensures FeedsFor(ts + [t], name)
         == FeedsFor(ts, name) + (if t.name == name then [t.feedId] else [])
  {
    FeedsForAppend(ts, [t], name);
    assert [t][1..] == [];
  }

  /**
   A feed id appears in a name's list exactly as often as the tagging of that
   name and that feed occurs in the response: no deduplication.
   */
  lemma {:induction false} FeedsForCount(ts: seq<Tagging>, name: string, id: u64)
    ensures multiset(FeedsFor(ts, name))[id] == multiset(ts)[Tagging(name, id)]
  {
    if ts != [] {
      assert ts == [ts[0]] + ts[1..];
      FeedsForCount(ts[1..], name, id);
    }
  }

  /** A feed id is listed under a name exactly when that tagging was in the response. */
  lemma {:induction false} FeedsForMember(ts: seq<Tagging>, name: string, id: u64)
    ensures id in FeedsFor(ts, name) <==> Tagging(name, id) in ts
  {
    FeedsForCount(ts, name, id);
  }

  /** A name's list is non-empty exactly when some tagging carries that name. */
  lemma {:induction false} FeedsForNonEmpty(ts: seq<Tagging>, name: string)
    ensures FeedsFor(ts, name) != [] <==> name in Names(ts)
  {
    if ts != [] {
      assert Names(ts) == {ts[0].name} + Names(ts[1..]) by {
        assert ts == [ts[0]] + ts[1..];
      }
      FeedsForNonEmpty(ts[1..], name);
    }
  }

  // ---------------------------------------------------------------------------
  // TagMapOf: one step, and the total

  /**
   The effect of one more tagging on the tag map: a name already present gets
   the feed id pushed onto its list, a new name gets a one-element list, and
   every other entry stays as it was.
   */
  lemma TagMapOfSnoc(ts: seq<Tagging>, t: Tagging)
    ensures t.name in TagMapOf(ts) ==>
              TagMapOf(ts + [t]) == TagMapOf(ts)[t.name := TagMapOf(ts)[t.name] + [t.feedId]]
    ensures t.name !in TagMapOf(ts) ==>
              TagMapOf(ts + [t]) == TagMapOf(ts)[t.name := [t.feedId]]
  {
    var before, after := TagMapOf(ts), TagMapOf(ts + [t]);
    var existing := if t.name in before then before[t.name] else [];
    var expected := before[t.name := existing + [t.feedId]];
    assert Names(ts + [t]) == Names(ts) + {t.name};
    assert after.Keys == expected.Keys;
    forall n | n in after.Keys ensures after[n] == expected[n] {
      FeedsForSnoc(ts, t, n);
      if n == t.name && t.name !in before {
        FeedsForNonEmpty(ts, t.name);
      }
    }
    assert after == expected;
    if t.name !in before {
      assert existing + [t.feedId] == [t.feedId];
    }
  }

  /** Removing one key takes exactly that key's list out of the total. */
  lemma {:induction false} TotalFeedsRemove(m: map<string, FeedList>, k: string)
    requires k in m
    ensures TotalFeeds(m) == |m[k]| + TotalFeeds(m - {k})
    decreases |m|
  {
    var j :| j in m && TotalFeeds(m) == |m[j]| + TotalFeeds(m - {j});
    if j != k {
      assert (m - {j}).Keys == m.Keys - {j};
      assert (m - {k}).Keys == m.Keys - {k};
      TotalFeedsRemove(m - {j}, k);
      TotalFeedsRemove(m - {k}, j);
      assert m - {j} - {k} == m - {k} - {j};
    }
  }

  /** Storing a list under a key replaces that key's contribution to the total. */
  lemma TotalFeedsUpdate(m: map<string, FeedList>, k: string, v: FeedList)
    ensures TotalFeeds(m[k := v]) == TotalFeeds(m) - (if k in m then |m[k]| else 0) + |v|
  {
    TotalFeedsRemove(m[k := v], k);
    assert m[k := v] - {k} == m - {k};
    if k in m {
      TotalFeedsRemove(m, k);
    } else {
      assert m - {k} == m;
    }
  }

  /** Every tagging contributes exactly one feed id to the tag map. */
  lemma {:induction false} TagMapOfTotal(ts: seq<Tagging>)
    ensures TotalFeeds(TagMapOf(ts)) == |ts|
  {
    if ts == [] {
      assert TagMapOf(ts) == map[];
    } else {
      var prefix, t := ts[..|ts| - 1], ts[|ts| - 1];
      assert ts == prefix + [t];
      TagMapOfTotal(prefix);
      TagMapOfSnoc(prefix, t);
      var m := TagMapOf(prefix);
      if t.name in m {
        TotalFeedsUpdate(m, t.name, m[t.name] + [t.feedId]);
      } else {
        TotalFeedsUpdate(m, t.name, [t.feedId]);
      }
    }
  }

  // ---------------------------------------------------------------------------
  // The grouping as the program runs it

  /**
   One pass of the loop body: if the name is already a key, push the feed id
   onto its list (looked up again, which cannot come back empty); otherwise
   insert a new one-element list.
   */
  method Record(tagMap: map<string, FeedList>, t: Tagging) returns (updated: map<string, FeedList>)
    ensures updated.Keys == tagMap.Keys + {t.name}
    ensures t.name in tagMap ==> updated[t.name] == tagMap[t.name] + [t.feedId]
    ensures t.name !in tagMap ==> updated[t.name] == [t.feedId]
    ensures forall k :: k in tagMap && k != t.name ==> updated[k] == tagMap[k]
  {
    if t.name in tagMap {
      match Lookup(tagMap, t.name)
      case None =>
        // the lookup right after a successful key test: never taken
        assert false;
        updated := tagMap;
      case Some(feedList) =>
        updated := tagMap[t.name := feedList + [t.feedId]];
    } else {
      updated := tagMap[t.name := [t.feedId]];
    }
  }

  /**
   The loop over the taggings of a fresh response, starting from an empty
   map: the result is the tag map of the whole response.
   */
  method GroupTaggings(taggings: seq<Tagging>) returns (tagMap: map<string, FeedList>)
    ensures tagMap == TagMapOf(taggings)
    ensures tagMap.Keys == Names(taggings)
    ensures forall name :: name in tagMap ==> tagMap[name] == FeedsFor(taggings, name) && tagMap[name] != []
    ensures TotalFeeds(tagMap) == |taggings|
  {
    tagMap := map[];
    assert TagMapOf(taggings[..0]) == map[];
    for i := 0 to |taggings|
      invariant tagMap == TagMapOf(taggings[..i])
    {
      ghost var prefix := taggings[..i];
      assert taggings[..i + 1] == prefix + [taggings[i]];
      TagMapOfSnoc(prefix, taggings[i]);
      tagMap := Record(tagMap, taggings[i]);
    }
    assert taggings[..|taggings|] == taggings;
    forall name | name in tagMap ensures tagMap[name] != [] {
      FeedsForNonEmpty(taggings, name);
    }
    TagMapOfTotal(taggings);
  }

  /**
   The tag map of a taggings response: filled from the payload when the
   response is `Modified`, left empty when it is `NotModified`.
   */
  method BuildTagMap(response: CacheRequestResponse<seq<Tagging>>) returns (tagMap: map<string, FeedList>)
    ensures response.NotModified? ==> tagMap == map[]
    ensures response.Modified? ==> tagMap == TagMapOf(response.value)
    ensures response.Modified? ==> TotalFeeds(tagMap) == |response.value|
  {
    tagMap := map[];
    match response
    case Modified(taggings) =>
      tagMap := GroupTaggings(taggings);
    case NotModified =>
  }
}
