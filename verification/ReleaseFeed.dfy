/**
Picking the release tags to check: the feed's tags in descending precedence, the
first few of them probed for the platform's update manifest, the newest ones kept.
*/
module ReleaseFeed {
  import opened Options
  import opened VersionPrecedence

  const MAX_MANIFEST_PROBE_CANDIDATES: nat := 6

  /** A tag of the feed and what its version parses to. */
  datatype FeedEntry = FeedEntry(tag: string, version: Option<Version>)

  datatype ReleaseTag = ReleaseTag(tag: string, version: Version)

  predicate AllParsed(tags: seq<ReleaseTag>) {
    forall i | 0 <= i < |tags| :: Parsed(tags[i].version)
  }

  predicate WellParsed(feed: seq<FeedEntry>) {
    forall i | 0 <= i < |feed| && feed[i].version.Some? :: Parsed(feed[i].version.value)
  }

  predicate Descending(coll: Collation, tags: seq<ReleaseTag>)
    requires AllParsed(tags)
  {
    forall i, j | 0 <= i < j < |tags| :: CompareParsed(coll, tags[i].version, tags[j].version) >= 0
  }

  function ValidTags(feed: seq<FeedEntry>): seq<ReleaseTag> {
    if feed == [] then []
    else
      var last := feed[|feed| - 1];
      ValidTags(feed[..|feed| - 1]) + (if last.version.Some? then [ReleaseTag(last.tag, last.version.value)] else [])
  }

  /** `fetchReleaseFeedTags` from the parsed feed on: drop what is no version, then sort. */
  method FetchReleaseFeedTags(coll: Collation, feed: seq<FeedEntry>) returns (tags: seq<ReleaseTag>)
    requires Collates(coll) && WellParsed(feed)
    ensures multiset(tags) == multiset(ValidTags(feed))
    ensures AllParsed(tags) && Descending(coll, tags)
  {
    tags := [];
    for i := 0 to |feed|
      invariant tags == ValidTags(feed[..i]) && AllParsed(tags)
    {
      assert feed[..i + 1][..i] == feed[..i];
      if feed[i].version.Some? {
        tags := tags + [ReleaseTag(feed[i].tag, feed[i].version.value)];
      }
    }
    assert feed[..|feed|] == feed;
    tags := SortDescending(coll, tags);
  }

  /** The runtime's sort with the comparator `compareVersions(right, left)`. */
  method SortDescending(coll: Collation, tags: seq<ReleaseTag>) returns (sorted: seq<ReleaseTag>)
    requires Collates(coll) && AllParsed(tags)
    ensures multiset(sorted) == multiset(tags)
    ensures AllParsed(sorted) && Descending(coll, sorted)
  {
    sorted := [];
    for i := 0 to |tags|
      invariant multiset(sorted) == multiset(tags[..i])
      invariant AllParsed(sorted) && Descending(coll, sorted)
    {
      assert tags[..i + 1] == tags[..i] + [tags[i]];
      sorted := Insert(coll, sorted, tags[i]);
    }
    assert tags[..|tags|] == tags;
  }

  method Insert(coll: Collation, sorted: seq<ReleaseTag>, tag: ReleaseTag) returns (longer: seq<ReleaseTag>)
    requires Collates(coll) && AllParsed(sorted) && Descending(coll, sorted) && Parsed(tag.version)
    ensures multiset(longer) == multiset(sorted) + multiset{tag}
    ensures AllParsed(longer) && Descending(coll, longer)
  {
    var k := Position(coll, sorted, tag);
    InsertedDescends(coll, sorted, tag, k);
    longer := sorted[..k] + [tag] + sorted[k..];
    InsertedOnce(sorted, tag, k);
  }

  lemma InsertedOnce(sorted: seq<ReleaseTag>, tag: ReleaseTag, k: nat)
    requires k <= |sorted|
    ensures multiset(sorted[..k] + [tag] + sorted[k..]) == multiset(sorted) + multiset{tag}
  {
    assert sorted == sorted[..k] + sorted[k..];
  }

  /** Where to insert behind every tag that is not lower. */
  method Position(coll: Collation, sorted: seq<ReleaseTag>, tag: ReleaseTag) returns (k: nat)
    requires AllParsed(sorted) && Parsed(tag.version)
    ensures k <= |sorted|
    ensures forall j | k <= j < |sorted| :: CompareParsed(coll, tag.version, sorted[j].version) > 0
    ensures k > 0 ==> CompareParsed(coll, tag.version, sorted[k - 1].version) <= 0
  {
    k := |sorted|;
    while k > 0
      invariant k <= |sorted|
      invariant forall j | k <= j < |sorted| :: CompareParsed(coll, tag.version, sorted[j].version) > 0
    {
      var order := CompareVersions(coll, Some(tag.version), Some(sorted[k - 1].version));
      if order <= 0 {
        return;
      }
      k := k - 1;
    }
  }

  lemma InsertedDescends(coll: Collation, sorted: seq<ReleaseTag>, tag: ReleaseTag, k: nat)
    requires Collates(coll) && AllParsed(sorted) && Descending(coll, sorted) && Parsed(tag.version) && k <= |sorted|
    requires forall j | k <= j < |sorted| :: CompareParsed(coll, tag.version, sorted[j].version) > 0
    requires k > 0 ==> CompareParsed(coll, tag.version, sorted[k - 1].version) <= 0
    ensures AllParsed(sorted[..k] + [tag] + sorted[k..])
    ensures Descending(coll, sorted[..k] + [tag] + sorted[k..])
  {
    var longer := sorted[..k] + [tag] + sorted[k..];
    assert forall j | 0 <= j < |longer| :: longer[j] == if j < k then sorted[j] else if j == k then tag
        else sorted[j - 1];
    forall i | 0 <= i < k
      ensures CompareParsed(coll, sorted[i].version, tag.version) >= 0
    {
      Mirrored(coll, tag.version, sorted[k - 1].version);
      AtLeast(coll, sorted[i].version, sorted[k - 1].version, tag.version);
    }
  }

  lemma Mirrored(coll: Collation, a: Version, b: Version)
    requires Collates(coll) && Parsed(a) && Parsed(b)
    ensures CompareParsed(coll, a, b) < 0 <==> CompareParsed(coll, b, a) > 0
    ensures CompareParsed(coll, a, b) > 0 <==> CompareParsed(coll, b, a) < 0
  {
    ComparisonIsTotalPreorder(coll, a, b, a);
    ComparisonIsTotalPreorder(coll, b, a, b);
  }

  /** Transitivity downwards. */
  lemma AtLeast(coll: Collation, a: Version, b: Version, c: Version)
    requires Collates(coll) && Parsed(a) && Parsed(b) && Parsed(c)
    ensures CompareParsed(coll, a, b) >= 0 && CompareParsed(coll, b, c) >= 0 ==> CompareParsed(coll, a, c) >= 0
    ensures CompareParsed(coll, a, b) >= 0 && CompareParsed(coll, b, c) > 0 ==> CompareParsed(coll, a, c) > 0
  {
    Mirrored(coll, a, b);
    Mirrored(coll, b, c);
    Mirrored(coll, a, c);
    ComparisonIsTotalPreorder(coll, c, b, a);
    ComparisonIsTotalPreorder(coll, b, a, c);
  }

  // ---------------------------------------------------------------------
  // The selection
  // ---------------------------------------------------------------------

  predicate Newer(coll: Collation, tag: ReleaseTag, current: Option<Version>)
    requires Parsed(tag.version) && (current.Some? ==> Parsed(current.value))
  {
    OrZero(coll, Some(tag.version), current) > 0
  }

  /** `findIndex`: the first index from `i` on that satisfies the predicate, or -1. */
  function FindIndex(tags: seq<ReleaseTag>, p: ReleaseTag -> bool, i: nat): (k: int)
    requires i <= |tags|
    ensures -1 <= k < |tags|
    decreases |tags| - i
  {
    if i == |tags| then -1
    else if p(tags[i]) then i
    else FindIndex(tags, p, i + 1)
  }

  function Filter(tags: seq<ReleaseTag>, p: ReleaseTag -> bool): (kept: seq<ReleaseTag>)
    ensures forall tag | tag in kept :: tag in tags && p(tag)
  {
    if tags == [] then [] else (if p(tags[0]) then [tags[0]] else []) + Filter(tags[1..], p)
  }

  function Names(tags: seq<ReleaseTag>): seq<string> {
    seq(|tags|, i requires 0 <= i < |tags| => tags[i].tag)
  }

  function Take(tags: seq<ReleaseTag>, n: nat): seq<ReleaseTag> {
    if n <= |tags| then tags[..n] else tags
  }

  predicate IsStable(tag: ReleaseTag) {
    tag.version.prerelease == []
  }

  /** "Newer than the current version", on any tag. */
  function NewerThan(coll: Collation, current: Option<Version>): ReleaseTag -> bool
    requires current.Some? ==> Parsed(current.value)
  {
    (tag: ReleaseTag) => Parsed(tag.version) && Newer(coll, tag, current)
  }

  /** What the probes say of a tag. */
  function Offered(hasManifest: string -> bool): ReleaseTag -> bool {
    (tag: ReleaseTag) => hasManifest(tag.tag)
  }

  function OfferedAndNewer(coll: Collation, current: Option<Version>, hasManifest: string -> bool): ReleaseTag -> bool
    requires current.Some? ==> Parsed(current.value)
  {
    (tag: ReleaseTag) => hasManifest(tag.tag) && Parsed(tag.version) && Newer(coll, tag, current)
  }

  /** The part of the pipeline behind the probes. */
  function Pick(coll: Collation, probed: seq<ReleaseTag>, current: Option<Version>, maxTags: nat,
                hasManifest: string -> bool): seq<string>
    requires current.Some? ==> Parsed(current.value)
  {
    var primary := FindIndex(probed, OfferedAndNewer(coll, current, hasManifest), 0);
    if primary < 0 then []
    else Names(Take(Filter(probed[primary..], Offered(hasManifest)), maxTags))
  }

  /** `fetchNewerReleaseTags` from the fetched tags on; `hasManifest` is what the probes say. */
  function FetchNewerReleaseTags(coll: Collation, feed: Option<seq<ReleaseTag>>, current: Option<Version>, maxTags: int,
                                 includePrerelease: bool, hasManifest: string -> bool): seq<string>
    requires current.Some? ==> Parsed(current.value)
  {
    if feed == None || maxTags <= 0 then []
    else
      var candidates := if includePrerelease then feed.value else Filter(feed.value, IsStable);
      var newestNewer := FindIndex(candidates, NewerThan(coll, current), 0);
      if newestNewer < 0 then []
      else
        Pick(coll, Take(candidates[newestNewer..], MAX_MANIFEST_PROBE_CANDIDATES), current, maxTags, hasManifest)
  }

  /** The specification: of the first six candidates keep those with a manifest; they are
      the answer, up to `maxTags` of them, if the first is newer than the current version. */
  function Selection(coll: Collation, candidates: seq<ReleaseTag>, current: Option<Version>, maxTags: nat,
                     hasManifest: string -> bool): seq<string>
    requires current.Some? ==> Parsed(current.value)
  {
    var kept := Filter(Take(candidates, MAX_MANIFEST_PROBE_CANDIDATES), Offered(hasManifest));
    if kept != [] && NewerThan(coll, current)(kept[0]) then Names(Take(kept, maxTags)) else []
  }

  lemma {:induction false} FindIndexFinds(tags: seq<ReleaseTag>, p: ReleaseTag -> bool, i: nat)
    requires i <= |tags|
    ensures var k := FindIndex(tags, p, i);
      && (k < 0 ==> k == -1 && forall j | i <= j < |tags| :: !p(tags[j]))
      && (k >= 0 ==> i <= k < |tags| && p(tags[k]) && forall j | i <= j < k :: !p(tags[j]))
    decreases |tags| - i
  {
    if i < |tags| && !p(tags[i]) {
      FindIndexFinds(tags, p, i + 1);
    }
  }

  /** In a descending list what comes before a newer tag is newer. */
  lemma NewerIsUpwardClosed(coll: Collation, tags: seq<ReleaseTag>, current: Option<Version>, i: nat, j: nat)
    requires Collates(coll) && AllParsed(tags) && Descending(coll, tags) && i <= j < |tags|
    requires current.Some? ==> Parsed(current.value)
    ensures Newer(coll, tags[j], current) ==> Newer(coll, tags[i], current)
  {
    if current.Some? && i < j {
      AtLeast(coll, tags[i].version, tags[j].version, current.value);
    }
  }

  /** So the search for the newest newer tag only ever answers -1 or 0. */
  lemma NewestNewerIsFirst(coll: Collation, tags: seq<ReleaseTag>, current: Option<Version>)
    requires Collates(coll) && AllParsed(tags) && Descending(coll, tags)
    requires current.Some? ==> Parsed(current.value)
    ensures var k := FindIndex(tags, NewerThan(coll, current), 0);
      (k == -1 || k == 0) && (k == 0 <==> tags != [] && Newer(coll, tags[0], current))
  {
    FindIndexFinds(tags, NewerThan(coll, current), 0);
    var k := FindIndex(tags, NewerThan(coll, current), 0);
    if k > 0 {
      NewerIsUpwardClosed(coll, tags, current, 0, k);
    }
  }

  lemma {:induction false} FilterSkips(tags: seq<ReleaseTag>, p: ReleaseTag -> bool, n: nat)
    requires n <= |tags| && forall j | 0 <= j < n :: !p(tags[j])
    ensures Filter(tags, p) == Filter(tags[n..], p)
  {
    if n > 0 {
      assert tags[n..] == tags[1..][n - 1..];
      FilterSkips(tags[1..], p, n - 1);
    }
  }

  lemma {:induction false} FilterKeeps(tags: seq<ReleaseTag>, p: ReleaseTag -> bool)
    ensures forall tag | tag in Filter(tags, p) :: tag in tags
  {
    if tags != [] {
      FilterKeeps(tags[1..], p);
    }
  }

  lemma {:induction false} FilterDescends(coll: Collation, tags: seq<ReleaseTag>, p: ReleaseTag -> bool)
    requires AllParsed(tags) && Descending(coll, tags)
    ensures AllParsed(Filter(tags, p)) && Descending(coll, Filter(tags, p))
  {
    if tags != [] {
      var kept := Filter(tags[1..], p);
      FilterDescends(coll, tags[1..], p);
      FilterKeeps(tags[1..], p);
      forall k | 0 <= k < |kept|
        ensures CompareParsed(coll, tags[0].version, kept[k].version) >= 0
      {
        assert kept[k] in tags[1..];
      }
      DescendingCons(coll, tags[0], kept);
    }
  }

  lemma DescendingCons(coll: Collation, head: ReleaseTag, tags: seq<ReleaseTag>)
    requires Parsed(head.version) && AllParsed(tags) && Descending(coll, tags)
    requires forall k | 0 <= k < |tags| :: CompareParsed(coll, head.version, tags[k].version) >= 0
    ensures AllParsed([head] + tags) && Descending(coll, [head] + tags)
  {
  }

  /** On a descending feed the pipeline computes the specification, whatever the current
      version, the limit and the probes say. */
  lemma FetchRefinesSelection(coll: Collation, feed: seq<ReleaseTag>, current: Option<Version>, maxTags: int,
                              includePrerelease: bool, hasManifest: string -> bool)
    requires Collates(coll) && AllParsed(feed) && Descending(coll, feed)
    requires current.Some? ==> Parsed(current.value)
    ensures FetchNewerReleaseTags(coll, Some(feed), current, maxTags, includePrerelease, hasManifest) ==
      if maxTags <= 0 then []
      else Selection(coll, if includePrerelease then feed else Filter(feed, IsStable), current, maxTags, hasManifest)
  {
    FilterDescends(coll, feed, IsStable);
    var candidates := if includePrerelease then feed else Filter(feed, IsStable);
    if maxTags > 0 {
      CandidatesRefine(coll, candidates, current, maxTags, hasManifest);
    }
  }

  lemma CandidatesRefine(coll: Collation, candidates: seq<ReleaseTag>, current: Option<Version>, maxTags: nat,
                         hasManifest: string -> bool)
    requires Collates(coll) && AllParsed(candidates) && Descending(coll, candidates) && maxTags > 0
    requires current.Some? ==> Parsed(current.value)
    ensures FetchNewerReleaseTags(coll, Some(candidates), current, maxTags, true, hasManifest)
         == Selection(coll, candidates, current, maxTags, hasManifest)
  {
    NewestNewerIsFirst(coll, candidates, current);
    var probed := Take(candidates, MAX_MANIFEST_PROBE_CANDIDATES);
    PickRefines(coll, probed, current, maxTags, hasManifest);
    assert candidates[0..] == candidates;
    FirstKept(probed, Offered(hasManifest));
    var first := FindIndex(probed, Offered(hasManifest), 0);
    if first != -1 {
      NewerIsUpwardClosed(coll, candidates, current, 0, first);
    }
  }

  lemma PickRefines(coll: Collation, probed: seq<ReleaseTag>, current: Option<Version>, maxTags: nat,
                    hasManifest: string -> bool)
    requires Collates(coll) && AllParsed(probed) && Descending(coll, probed)
    requires current.Some? ==> Parsed(current.value)
    ensures var kept := Filter(probed, Offered(hasManifest));
      Pick(coll, probed, current, maxTags, hasManifest)
        == if kept != [] && NewerThan(coll, current)(kept[0]) then Names(Take(kept, maxTags)) else []
  {
    var offered := Offered(hasManifest);
    FirstKept(probed, offered);
    var first := FindIndex(probed, offered, 0);
    if first == -1 {
      NothingOffered(coll, probed, current, hasManifest);
    } else {
      PrimaryIsFirstOffered(coll, probed, current, hasManifest, first);
    }
  }

  lemma NothingOffered(coll: Collation, probed: seq<ReleaseTag>, current: Option<Version>, hasManifest: string -> bool)
    requires current.Some? ==> Parsed(current.value)
    requires forall j | 0 <= j < |probed| :: !Offered(hasManifest)(probed[j])
    ensures FindIndex(probed, OfferedAndNewer(coll, current, hasManifest), 0) == -1
  {
    FindIndexFinds(probed, OfferedAndNewer(coll, current, hasManifest), 0);
  }

  lemma PrimaryIsFirstOffered(coll: Collation, probed: seq<ReleaseTag>, current: Option<Version>,
                              hasManifest: string -> bool, first: nat)
    requires Collates(coll) && AllParsed(probed) && Descending(coll, probed)
    requires current.Some? ==> Parsed(current.value)
    requires first < |probed| && Offered(hasManifest)(probed[first])
    requires forall j | 0 <= j < first :: !Offered(hasManifest)(probed[j])
    ensures FindIndex(probed, OfferedAndNewer(coll, current, hasManifest), 0)
         == if Newer(coll, probed[first], current) then first else -1
  {
    FindIndexFinds(probed, OfferedAndNewer(coll, current, hasManifest), 0);
    var k := FindIndex(probed, OfferedAndNewer(coll, current, hasManifest), 0);
    if k >= first {
      NewerIsUpwardClosed(coll, probed, current, first, k);
    }
  }

  /** What is kept first is what is found first. */
  lemma FirstKept(tags: seq<ReleaseTag>, p: ReleaseTag -> bool)
    ensures var first := FindIndex(tags, p, 0);
      && (first == -1 ==> Filter(tags, p) == [] && forall j | 0 <= j < |tags| :: !p(tags[j]))
      && (first != -1 ==>
           && 0 <= first < |tags| && p(tags[first]) && (forall j | 0 <= j < first :: !p(tags[j]))
           && Filter(tags, p) == Filter(tags[first..], p) && Filter(tags, p) != [] && Filter(tags, p)[0] == tags[first])
  {
    var first := FindIndex(tags, p, 0);
    FindIndexFinds(tags, p, 0);
    FilterSkips(tags, p, if first == -1 then |tags| else first);
  }

  // ---------------------------------------------------------------------
  // The answer, told by positions in the feed
  // ---------------------------------------------------------------------

  /** Positions below `n`, in ascending order. */
  predicate Ascending(positions: seq<nat>, n: nat) {
    && (forall k | 0 <= k < |positions| :: positions[k] < n)
    && forall j, k | 0 <= j < k < |positions| :: positions[j] < positions[k]
  }

  lemma {:induction false} FilterOneMore(tags: seq<ReleaseTag>, last: ReleaseTag, p: ReleaseTag -> bool)
    ensures Filter(tags + [last], p) == Filter(tags, p) + if p(last) then [last] else []
  {
    if tags == [] {
      assert (tags + [last])[1..] == [];
    } else {
      assert (tags + [last])[1..] == tags[1..] + [last];
      FilterOneMore(tags[1..], last, p);
    }
  }

  /** `kept` are the tags at the positions, which are those that satisfy the predicate. */
  predicate Picks(tags: seq<ReleaseTag>, kept: seq<ReleaseTag>, p: ReleaseTag -> bool, at: seq<nat>) {
    && Ascending(at, |tags|) && |at| == |kept|
    && (forall k | 0 <= k < |at| :: kept[k] == tags[at[k]] && p(kept[k]))
    && forall i: nat | i < |tags| && p(tags[i]) :: i in at
  }

  lemma PicksOneMore(tags: seq<ReleaseTag>, kept: seq<ReleaseTag>, p: ReleaseTag -> bool, at: seq<nat>,
                     last: ReleaseTag)
    requires Picks(tags, kept, p, at) && p(last)
    ensures Picks(tags + [last], kept + [last], p, at + [|tags|])
  {
    var more := tags + [last];
    assert forall i: nat | i < |tags| :: more[i] == tags[i];
    forall i: nat | i < |more| && p(more[i]) ensures i in at + [|tags|] {
      if i < |tags| {
        assert p(tags[i]) && i in at;
      } else {
        assert (at + [|tags|])[|at|] == i;
      }
    }
  }

  lemma PicksNoMore(tags: seq<ReleaseTag>, kept: seq<ReleaseTag>, p: ReleaseTag -> bool, at: seq<nat>, last: ReleaseTag)
    requires Picks(tags, kept, p, at) && !p(last)
    ensures Picks(tags + [last], kept, p, at)
  {
    var more := tags + [last];
    assert forall i: nat | i < |tags| :: more[i] == tags[i];
  }

  /** What is kept are the tags that satisfy the predicate, all of them, in their order. */
  lemma {:induction false} FilterByPosition(tags: seq<ReleaseTag>, p: ReleaseTag -> bool) returns (at: seq<nat>)
    ensures Picks(tags, Filter(tags, p), p, at)
  {
    if tags == [] {
      at := [];
    } else {
      var init, last := tags[..|tags| - 1], tags[|tags| - 1];
      at := FilterByPosition(init, p);
      FilterOneMore(init, last, p);
      assert init + [last] == tags;
      if p(last) {
        PicksOneMore(init, Filter(init, p), p, at, last);
        at := at + [|init|];
      } else {
        PicksNoMore(init, Filter(init, p), p, at, last);
      }
    }
  }

  /** The entries of the feed as tags, of some version where they have none. */
  function AsTag(entry: FeedEntry): ReleaseTag {
    ReleaseTag(entry.tag, match entry.version case Some(v) => v case None => Version([], []))
  }

  /** `tags` are the entries at the positions, which are those that parse. */
  predicate PicksParsed(feed: seq<FeedEntry>, tags: seq<ReleaseTag>, at: seq<nat>) {
    && Ascending(at, |feed|) && |at| == |tags|
    && (forall k | 0 <= k < |at| :: feed[at[k]].version.Some? && tags[k] == AsTag(feed[at[k]]))
    && forall i: nat | i < |feed| && feed[i].version.Some? :: i in at
  }

  lemma ParsedOneMore(feed: seq<FeedEntry>, tags: seq<ReleaseTag>, at: seq<nat>, last: FeedEntry)
    requires PicksParsed(feed, tags, at) && last.version.Some?
    ensures PicksParsed(feed + [last], tags + [AsTag(last)], at + [|feed|])
  {
    var more := feed + [last];
    assert forall i: nat | i < |feed| :: more[i] == feed[i];
    forall i: nat | i < |more| && more[i].version.Some? ensures i in at + [|feed|] {
      if i < |feed| {
        assert feed[i].version.Some? && i in at;
      } else {
        assert (at + [|feed|])[|at|] == i;
      }
    }
  }

  lemma ParsedNoMore(feed: seq<FeedEntry>, tags: seq<ReleaseTag>, at: seq<nat>, last: FeedEntry)
    requires PicksParsed(feed, tags, at) && last.version.None?
    ensures PicksParsed(feed + [last], tags, at)
  {
    var more := feed + [last];
    assert forall i: nat | i < |feed| :: more[i] == feed[i];
  }

  /** The tags of the feed are those of its entries that parse, all of them, in their order. */
  lemma {:induction false} ValidTagsByPosition(feed: seq<FeedEntry>) returns (at: seq<nat>)
    ensures PicksParsed(feed, ValidTags(feed), at)
  {
    if feed == [] {
      at := [];
    } else {
      var init, last := feed[..|feed| - 1], feed[|feed| - 1];
      at := ValidTagsByPosition(init);
      assert init + [last] == feed;
      if last.version.Some? {
        ParsedOneMore(init, ValidTags(init), at, last);
        at := at + [|init|];
      } else {
        ParsedNoMore(init, ValidTags(init), at, last);
        assert ValidTags(feed) == ValidTags(init);
      }
    }
  }

  /** The answer on a descending feed: take the positions of the tags that may be offered,
      all or the stable ones; of the first six of those, the ones whose manifest is there;
      if the first of these is newer than the current version, the tags there are the
      answer, in order, up to `maxTags` of them; otherwise there is none. */
  lemma FetchedByPosition(coll: Collation, feed: seq<ReleaseTag>, current: Option<Version>, maxTags: int,
                          includePrerelease: bool, hasManifest: string -> bool)
    returns (candidates: seq<nat>, kept: seq<nat>)
    requires Collates(coll) && AllParsed(feed) && Descending(coll, feed)
    requires current.Some? ==> Parsed(current.value)
    ensures IsCandidates(feed, includePrerelease, candidates)
    ensures IsKept(feed, candidates, hasManifest, kept)
    ensures AllParsed(At(feed, candidates, kept))
    ensures IsAnswer(coll, At(feed, candidates, kept), current, maxTags,
      FetchNewerReleaseTags(coll, Some(feed), current, maxTags, includePrerelease, hasManifest))
  {
    var tags := if includePrerelease then feed else Filter(feed, IsStable);
    candidates := CandidatesByPosition(feed, includePrerelease);
    kept := KeptByPosition(feed, candidates, tags, hasManifest);
    FetchAnswers(coll, feed, current, maxTags, includePrerelease, hasManifest);
  }

  lemma FetchAnswers(coll: Collation, feed: seq<ReleaseTag>, current: Option<Version>, maxTags: int,
                     includePrerelease: bool, hasManifest: string -> bool)
    requires Collates(coll) && AllParsed(feed) && Descending(coll, feed)
    requires current.Some? ==> Parsed(current.value)
    ensures var tags := if includePrerelease then feed else Filter(feed, IsStable);
      var kept := Filter(Take(tags, 6), Offered(hasManifest));
      && AllParsed(kept)
      && IsAnswer(coll, kept, current, maxTags,
           FetchNewerReleaseTags(coll, Some(feed), current, maxTags, includePrerelease, hasManifest))
  {
    var tags := if includePrerelease then feed else Filter(feed, IsStable);
    FilterDescends(coll, feed, IsStable);
    KeptIsParsed(coll, tags, hasManifest);
    FetchRefinesSelection(coll, feed, current, maxTags, includePrerelease, hasManifest);
    if maxTags > 0 {
      SelectionAnswers(coll, tags, current, maxTags, hasManifest);
    }
  }

  lemma KeptIsParsed(coll: Collation, tags: seq<ReleaseTag>, hasManifest: string -> bool)
    requires AllParsed(tags) && Descending(coll, tags)
    ensures AllParsed(Filter(Take(tags, 6), Offered(hasManifest)))
  {
    FilterDescends(coll, Take(tags, 6), Offered(hasManifest));
  }

  lemma SelectionAnswers(coll: Collation, tags: seq<ReleaseTag>, current: Option<Version>, maxTags: nat,
                         hasManifest: string -> bool)
    requires maxTags > 0 && (current.Some? ==> Parsed(current.value))
    requires AllParsed(Filter(Take(tags, 6), Offered(hasManifest)))
    ensures IsAnswer(coll, Filter(Take(tags, 6), Offered(hasManifest)), current, maxTags,
              Selection(coll, tags, current, maxTags, hasManifest))
  {
  }

  /** The tags at some positions among positions. */
  function At(feed: seq<ReleaseTag>, candidates: seq<nat>, kept: seq<nat>): seq<ReleaseTag>
    requires Ascending(candidates, |feed|) && Ascending(kept, |candidates|)
  {
    seq(|kept|, j requires 0 <= j < |kept| => feed[candidates[kept[j]]])
  }

  /** The names of the tags in order, up to `maxTags` of them, if the first is newer. */
  predicate IsAnswer(coll: Collation, tags: seq<ReleaseTag>, current: Option<Version>, maxTags: int,
                     answer: seq<string>)
    requires AllParsed(tags) && (current.Some? ==> Parsed(current.value))
  {
    if maxTags > 0 && tags != [] && OrZero(coll, Some(tags[0].version), current) > 0 then
      && |answer| == (if |tags| <= maxTags then |tags| else maxTags)
      && forall j | 0 <= j < |answer| :: answer[j] == tags[j].tag
    else answer == []
  }

  /** The positions of the tags that may be offered: all, or those without prerelease part. */
  predicate IsCandidates(feed: seq<ReleaseTag>, includePrerelease: bool, candidates: seq<nat>) {
    && Ascending(candidates, |feed|)
    && (forall k | 0 <= k < |candidates| :: includePrerelease || feed[candidates[k]].version.prerelease == [])
    && forall i: nat | i < |feed| && (includePrerelease || feed[i].version.prerelease == []) :: i in candidates
  }

  /** Which of the first six candidates have a manifest. */
  predicate IsKept(feed: seq<ReleaseTag>, candidates: seq<nat>, hasManifest: string -> bool, kept: seq<nat>)
    requires Ascending(candidates, |feed|)
  {
    && Ascending(kept, |candidates|)
    && (forall j | 0 <= j < |kept| :: kept[j] < 6 && hasManifest(feed[candidates[kept[j]]].tag))
    && forall k: nat | k < |candidates| && k < 6 && hasManifest(feed[candidates[k]].tag) :: k in kept
  }

  lemma CandidatesByPosition(feed: seq<ReleaseTag>, includePrerelease: bool) returns (candidates: seq<nat>)
    requires AllParsed(feed)
    ensures IsCandidates(feed, includePrerelease, candidates)
    ensures var tags := if includePrerelease then feed else Filter(feed, IsStable);
      && |candidates| == |tags| && AllParsed(tags)
      && forall k | 0 <= k < |tags| :: tags[k] == feed[candidates[k]]
  {
    if includePrerelease {
      candidates := seq(|feed|, i requires 0 <= i < |feed| => i);
      forall i: nat | i < |feed| ensures i in candidates {
        assert candidates[i] == i;
      }
    } else {
      candidates := FilterByPosition(feed, IsStable);
      StablePositions(feed, candidates);
    }
  }

  lemma StablePositions(feed: seq<ReleaseTag>, candidates: seq<nat>)
    requires Picks(feed, Filter(feed, IsStable), IsStable, candidates)
    ensures IsCandidates(feed, false, candidates)
  {
    var p: ReleaseTag -> bool := IsStable;
    forall i: nat | i < |feed| && feed[i].version.prerelease == [] ensures i in candidates {
      assert p(feed[i]);
    }
    forall k | 0 <= k < |candidates| ensures feed[candidates[k]].version.prerelease == [] {
      assert p(feed[candidates[k]]);
    }
  }

  lemma KeptByPosition(feed: seq<ReleaseTag>, candidates: seq<nat>, tags: seq<ReleaseTag>, hasManifest: string -> bool)
    returns (kept: seq<nat>)
    requires Ascending(candidates, |feed|) && |candidates| == |tags|
    requires forall k | 0 <= k < |tags| :: tags[k] == feed[candidates[k]]
    ensures IsKept(feed, candidates, hasManifest, kept)
    ensures Filter(Take(tags, 6), Offered(hasManifest)) == At(feed, candidates, kept)
  {
    var first := Take(tags, 6);
    kept := FilterByPosition(first, Offered(hasManifest));
    assert forall k: nat | k < |first| :: first[k] == tags[k];
    KeptPositions(feed, candidates, tags, hasManifest, kept);
  }

  lemma KeptPositions(feed: seq<ReleaseTag>, candidates: seq<nat>, tags: seq<ReleaseTag>, hasManifest: string -> bool,
                      kept: seq<nat>)
    requires Ascending(candidates, |feed|) && |candidates| == |tags|
    requires forall k | 0 <= k < |tags| :: tags[k] == feed[candidates[k]]
    requires Picks(Take(tags, 6), Filter(Take(tags, 6), Offered(hasManifest)), Offered(hasManifest), kept)
    ensures IsKept(feed, candidates, hasManifest, kept)
    ensures Filter(Take(tags, 6), Offered(hasManifest)) == At(feed, candidates, kept)
  {
    var first, p := Take(tags, 6), Offered(hasManifest);
    assert forall k: nat | k < |first| :: first[k] == tags[k];
    forall k: nat | k < |candidates| && k < 6 && hasManifest(feed[candidates[k]].tag) ensures k in kept {
      assert p(first[k]);
    }
    forall j | 0 <= j < |kept| ensures kept[j] < 6 && hasManifest(feed[candidates[kept[j]]].tag) {
      assert p(first[kept[j]]);
    }
  }
}
