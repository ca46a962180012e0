/** The helpers of crawl/util.go: joining CSS selectors, and keeping the
    listed circles that the cache does not hold yet. */
module CrawlUtil {
  import opened Strings
  import opened Tbf
  import opened CircleTable

  /** `joinSelectors`: the selectors separated by single spaces. */
  function JoinSelectors(selectors: seq<string>): (r: string)
    ensures |selectors| == 1 ==> r == selectors[0]
  {
    Join(selectors, ' ')
  }

  /** Joining two selectors puts exactly one space between them and
      nothing before or after. */
  lemma JoinTwoSelectors(a: string, b: string)
    ensures JoinSelectors([a, b]) == a + " " + b
  {
    assert [a, b][1..] == [b];
  }

  /** Joining three selectors puts one space between each pair. */
  lemma JoinThreeSelectors(a: string, b: string, c: string)
    ensures JoinSelectors([a, b, c]) == a + " " + b + " " + c
  {
    assert [b, c][1..] == [c];
    assert Join([b, c], ' ') == b + [' '] + c;
    assert [a, b, c][1..] == [b, c];
    assert Join([a, b, c], ' ') == a + [' '] + (b + [' '] + c);
  }

  /** Selectors without spaces can be read back by splitting on spaces. */
  lemma JoinSelectorsSplits(selectors: seq<string>)
    requires |selectors| >= 1
    requires forall i | 0 <= i < |selectors| :: ' ' !in selectors[i]
    ensures Split(JoinSelectors(selectors), ' ') == selectors
  {
    SplitJoin(selectors, ' ');
  }

  /** The listed circles whose Space is not a key of the cache, in order. */
  function Uncached(circles: seq<Circle>, cache: Cache): (r: seq<Circle>)
    ensures |r| <= |circles|
    ensures forall c :: c in r <==> c in circles && c.space !in cache
  {
    if |circles| == 0 then []
    else
      var n := |circles| - 1;
      Uncached(circles[..n], cache) + (if circles[n].space !in cache then [circles[n]] else [])
  }

  /** `FilterCircles`. */
  method FilterCircles(circles: seq<Circle>, cache: Cache) returns (filtered: seq<Circle>)
    ensures filtered == Uncached(circles, cache)
  {
    filtered := [];
    for i := 0 to |circles|
      invariant filtered == Uncached(circles[..i], cache)
    {
      assert circles[..i + 1][..i] == circles[..i];
      var c := circles[i];
      if c.space !in cache {
        filtered := filtered + [c];
      }
    }
    assert circles[..|circles|] == circles;
  }

  /** `a` is `b` with some elements left out, the rest in their order. */
  predicate IsSubsequence(a: seq<Circle>, b: seq<Circle>)
    decreases |b|
  {
    if |b| == 0 then |a| == 0
    else
      || (|a| > 0 && a[|a| - 1] == b[|b| - 1] && IsSubsequence(a[..|a| - 1], b[..|b| - 1]))
      || IsSubsequence(a, b[..|b| - 1])
  }

  /** The kept circles appear in the listing's order. */
  lemma {:induction false} UncachedIsSubsequence(circles: seq<Circle>, cache: Cache)
    ensures IsSubsequence(Uncached(circles, cache), circles)
  {
    if |circles| > 0 {
      var n := |circles| - 1;
      UncachedIsSubsequence(circles[..n], cache);
      var r := Uncached(circles[..n], cache);
      if circles[n].space !in cache {
        var a := Uncached(circles, cache);
        assert a == r + [circles[n]];
        assert a[..|a| - 1] == r && a[|a| - 1] == circles[n];
      } else {
        assert Uncached(circles, cache) == r;
      }
    }
  }

  /** With an empty cache every listed circle is kept. */
  lemma {:induction false} UncachedEmptyCache(circles: seq<Circle>)
    ensures Uncached(circles, map[]) == circles
  {
    if |circles| > 0 {
      var n := |circles| - 1;
      UncachedEmptyCache(circles[..n]);
      assert circles[..n] + [circles[n]] == circles;
    }
  }

  /** When the cache holds every listed Space nothing is kept. */
  lemma {:induction false} AllCachedKeepsNothing(circles: seq<Circle>, cache: Cache)
    requires forall i | 0 <= i < |circles| :: circles[i].space in cache
    ensures Uncached(circles, cache) == []
  {
    if |circles| > 0 {
      var n := |circles| - 1;
      assert forall i | 0 <= i < n :: circles[..n][i] == circles[i];
      AllCachedKeepsNothing(circles[..n], cache);
    }
  }

  /** Filtering twice with the same cache is filtering once. */
  lemma {:induction false} UncachedIdempotent(circles: seq<Circle>, cache: Cache)
    ensures Uncached(Uncached(circles, cache), cache) == Uncached(circles, cache)
  {
    UncachedKeepsAll(Uncached(circles, cache), cache);
  }

  /** A list with no cached Space is kept whole. */
  lemma {:induction false} UncachedKeepsAll(circles: seq<Circle>, cache: Cache)
    requires forall i | 0 <= i < |circles| :: circles[i].space !in cache
    ensures Uncached(circles, cache) == circles
  {
    if |circles| > 0 {
      var n := |circles| - 1;
      UncachedKeepsAll(circles[..n], cache);
      assert circles[..n] + [circles[n]] == circles;
    }
  }

  /** The listing itself is not deduplicated: a circle whose Space is not
      cached is kept as often as it is listed, and a cached one never. */
  lemma {:induction false} UncachedCounts(circles: seq<Circle>, cache: Cache, c: Circle)
    ensures multiset(Uncached(circles, cache))[c] == if c.space in cache then 0 else multiset(circles)[c]
  {
    if |circles| > 0 {
      var n := |circles| - 1;
      UncachedCounts(circles[..n], cache, c);
      assert circles[..n] + [circles[n]] == circles;
    }
  }

  /** With `A01` cached and `A01`, `B02`, `C03` listed, the circles at
      `B02` and `C03` are kept, in that order. */
  lemma DeduplicationExample(a: Circle, b: Circle, c: Circle, d: CircleDetail)
    requires a.space == "A01" && b.space == "B02" && c.space == "C03"
    ensures Uncached([a, b, c], map["A01" := d]) == [b, c]
  {
    var m := map["A01" := d];
    assert [a][..0] == [];
    assert Uncached([a], m) == [];
    assert [a, b][..1] == [a];
    assert Uncached([a, b], m) == [b];
    assert [a, b, c][..2] == [a, b];
  }
}
