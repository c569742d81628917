/**
 * The catalog of resources and the filter effect of the Resources page: the list
 * fetched from the store (newest first) is narrowed by the search box and, when the
 * "bookmarked" toggle is on, by bookmark membership. Both narrowings are
 * `Array.prototype.filter` calls, modelled by `Keep`.
 */
module Catalog {
  import opened Wrappers
  import opened Text

  /** One row of the `resources` table. */
  datatype Resource = Resource(
    id: string,
    name: string,
    description: string,
    fileUrl: string,
    thumbnailUrl: Option<string>,
    createdAt: string,
    userId: string)

  // ---------------------------------------------------------------------------
  // Order-preserving selection
  // ---------------------------------------------------------------------------

  /** `s.filter(p)`: the elements of `s` satisfying `p`, in their order in `s`. */
  function Keep<T>(s: seq<T>, p: T -> bool): (r: seq<T>)
    ensures |r| <= |s|
    ensures forall x :: x in r ==> x in s && p(x)
  {
    if s == [] then []
    else Keep(s[..|s| - 1], p) + (if p(s[|s| - 1]) then [s[|s| - 1]] else [])
  }

  /** The ascending indices of `s` whose element satisfies `p`. */
  function Positions<T>(s: seq<T>, p: T -> bool): seq<nat>
  {
    if s == [] then []
    else Positions(s[..|s| - 1], p) + (if p(s[|s| - 1]) then [|s| - 1] else [])
  }

  /** `r` is the sub-list of `s` at the strictly increasing indices `idx`. */
  ghost predicate SelectedBy<T>(r: seq<T>, s: seq<T>, idx: seq<nat>) {
    && |idx| == |r|
    && (forall k :: 0 <= k < |idx| ==> idx[k] < |s| && r[k] == s[idx[k]])
    && (forall k, l :: 0 <= k < l < |idx| ==> idx[k] < idx[l])
  }

  /** `r` is obtained from `s` by deleting elements, without reordering any. */
  ghost predicate IsSubsequence<T>(r: seq<T>, s: seq<T>) {
    exists idx :: SelectedBy(r, s, idx)
  }

  /**
   * `Keep(s, p)` is exactly the sub-list of `s` at the indices whose element
   * satisfies `p`: nothing is added, nothing is reordered, nothing that passes is lost.
   */
  lemma {:induction false} KeepSelects<T>(s: seq<T>, p: T -> bool)
    ensures SelectedBy(Keep(s, p), s, Positions(s, p))
    ensures forall i :: 0 <= i < |s| ==> (i in Positions(s, p) <==> p(s[i]))
    decreases |s|
  {
    if s != [] {
      var n := |s| - 1;
      var init := s[..n];
      KeepSelects(init, p);
      forall i | 0 <= i < n
        ensures init[i] == s[i]
      {
      }
      var r0, idx0 := Keep(init, p), Positions(init, p);
      if p(s[n]) {
        assert Keep(s, p) == r0 + [s[n]] && Positions(s, p) == idx0 + [n];
        assert forall k :: 0 <= k < |idx0| ==> idx0[k] < n;
      } else {
        assert Keep(s, p) == r0 && Positions(s, p) == idx0;
        assert n !in idx0;
      }
    }
  }

  /** Filtering one element longer a prefix of `s` appends that element when it passes. */
  lemma KeepPrefixStep<T>(s: seq<T>, i: nat, p: T -> bool)
    requires i < |s|
    ensures Keep(s[..i + 1], p) == Keep(s[..i], p) + (if p(s[i]) then [s[i]] else [])
  {
    assert s[..i + 1][..i] == s[..i];
  }

  /** Hence `Keep` yields a subsequence of its input. */
  lemma KeepIsSubsequence<T>(s: seq<T>, p: T -> bool)
    ensures IsSubsequence(Keep(s, p), s)
  {
    KeepSelects(s, p);
  }

  /** Every element of `s` that satisfies `p` is kept. */
  lemma KeepComplete<T>(s: seq<T>, p: T -> bool)
    ensures forall x :: x in s && p(x) ==> x in Keep(s, p)
  {
    KeepSelects(s, p);
    var r, idx := Keep(s, p), Positions(s, p);
    forall x | x in s && p(x)
      ensures x in r
    {
      var i :| 0 <= i < |s| && s[i] == x;
      assert i in idx;
      var k :| 0 <= k < |idx| && idx[k] == i;
      assert r[k] == x;
    }
  }

  /** Filtering with a predicate every element passes returns the list unchanged. */
  lemma {:induction false} KeepAll<T>(s: seq<T>, p: T -> bool)
    requires forall i :: 0 <= i < |s| ==> p(s[i])
    ensures Keep(s, p) == s
    decreases |s|
  {
    if s != [] {
      var init := s[..|s| - 1];
      assert forall i :: 0 <= i < |init| ==> init[i] == s[i];
      KeepAll(init, p);
      assert s == init + [s[|s| - 1]];
    }
  }

  /** Filtering depends only on which elements pass, not on how the predicate is written. */
  lemma {:induction false} KeepSamePredicate<T>(s: seq<T>, p: T -> bool, q: T -> bool)
    requires forall i :: 0 <= i < |s| ==> p(s[i]) == q(s[i])
    ensures Keep(s, p) == Keep(s, q)
    decreases |s|
  {
    if s != [] {
      KeepSamePredicate(s[..|s| - 1], p, q);
    }
  }

  /** Two filters in a row are one filter by the conjunction. */
  lemma {:induction false} KeepKeep<T>(s: seq<T>, p: T -> bool, q: T -> bool, pq: T -> bool)
    requires forall x :: pq(x) == (p(x) && q(x))
    ensures Keep(Keep(s, p), q) == Keep(s, pq)
    decreases |s|
  {
    if s != [] {
      var init, last := s[..|s| - 1], s[|s| - 1];
      KeepKeep(init, p, q, pq);
      KeepAppend(Keep(init, p), if p(last) then [last] else [], q);
    }
  }

  /** Filtering distributes over concatenation. */
  lemma {:induction false} KeepAppend<T>(a: seq<T>, b: seq<T>, p: T -> bool)
    ensures Keep(a + b, p) == Keep(a, p) + Keep(b, p)
    decreases |b|
  {
    if b == [] {
      assert a + b == a;
    } else {
      var b' := b[..|b| - 1];
      assert (a + b)[..|a + b| - 1] == a + b';
      KeepAppend(a, b', p);
    }
  }

  // ---------------------------------------------------------------------------
  // The filter effect
  // ---------------------------------------------------------------------------

  /**
   * The search test: the lower-cased name or the lower-cased description
   * includes the lower-cased query.
   */
  predicate MatchesQuery(r: Resource, query: string): (m: bool)
    ensures m <==> (exists i :: OccursAt(Lower(r.name), Lower(query), i))
                   || (exists i :: OccursAt(Lower(r.description), Lower(query), i))
  {
    IncludesIffOccurs(Lower(r.name), Lower(query));
    IncludesIffOccurs(Lower(r.description), Lower(query));
    Includes(Lower(r.name), Lower(query)) || Includes(Lower(r.description), Lower(query))
  }

  function SearchTest(query: string): Resource -> bool {
    (r: Resource) => MatchesQuery(r, query)
  }

  function BookmarkTest(isBookmarked: string -> bool): Resource -> bool {
    (r: Resource) => isBookmarked(r.id)
  }

  /**
   * The filter effect: an empty query (JavaScript-falsy) applies no search; the
   * bookmark test is applied only when `showBookmarked` is set.
   */
  function FilterResources(
    resources: seq<Resource>, searchQuery: string, showBookmarked: bool,
    isBookmarked: string -> bool): (shown: seq<Resource>)
    ensures |shown| <= |resources|
    ensures forall r :: r in shown ==> r in resources && Retained(r, searchQuery, showBookmarked, isBookmarked)
  {
    var searched := if searchQuery != "" then Keep(resources, SearchTest(searchQuery)) else resources;
    if showBookmarked then Keep(searched, BookmarkTest(isBookmarked)) else searched
  }

  /** Whether one resource survives the filter effect, stated on its own. */
  predicate Retained(r: Resource, searchQuery: string, showBookmarked: bool, isBookmarked: string -> bool) {
    && (searchQuery == "" || MatchesQuery(r, searchQuery))
    && (showBookmarked ==> isBookmarked(r.id))
  }

  function RetainedTest(searchQuery: string, showBookmarked: bool, isBookmarked: string -> bool): Resource -> bool {
    (r: Resource) => Retained(r, searchQuery, showBookmarked, isBookmarked)
  }

  /** The two chained filters are one filter by `Retained`. */
  lemma FilterIsOneKeep(resources: seq<Resource>, searchQuery: string, showBookmarked: bool, isBookmarked: string -> bool)
    ensures FilterResources(resources, searchQuery, showBookmarked, isBookmarked)
         == Keep(resources, RetainedTest(searchQuery, showBookmarked, isBookmarked))
  {
    var keep := RetainedTest(searchQuery, showBookmarked, isBookmarked);
    var search, marked := SearchTest(searchQuery), BookmarkTest(isBookmarked);
    if searchQuery != "" && showBookmarked {
      KeepKeep(resources, search, marked, keep);
    } else if searchQuery != "" {
      KeepSamePredicate(resources, search, keep);
    } else if showBookmarked {
      KeepSamePredicate(resources, marked, keep);
    } else {
      KeepAll(resources, keep);
    }
  }

  /**
   * The filtered list is exactly the sub-list of the catalog at the indices of
   * retained resources: an order-preserving subsequence (newest first stays newest
   * first), holding every retained resource and nothing else.
   */
  lemma FilterSelects(resources: seq<Resource>, searchQuery: string, showBookmarked: bool, isBookmarked: string -> bool)
    ensures var keep := RetainedTest(searchQuery, showBookmarked, isBookmarked);
      && SelectedBy(FilterResources(resources, searchQuery, showBookmarked, isBookmarked), resources, Positions(resources, keep))
      && forall i :: 0 <= i < |resources| ==> (i in Positions(resources, keep) <==> Retained(resources[i], searchQuery, showBookmarked, isBookmarked))
  {
    FilterIsOneKeep(resources, searchQuery, showBookmarked, isBookmarked);
    KeepSelects(resources, RetainedTest(searchQuery, showBookmarked, isBookmarked));
  }

  /** Filtering never adds or reorders entries. */
  lemma FilterIsSubsequence(resources: seq<Resource>, searchQuery: string, showBookmarked: bool, isBookmarked: string -> bool)
    ensures IsSubsequence(FilterResources(resources, searchQuery, showBookmarked, isBookmarked), resources)
  {
    FilterSelects(resources, searchQuery, showBookmarked, isBookmarked);
  }

  /** A resource is in the filtered view exactly when it is in the catalog and retained. */
  lemma FilterMembership(resources: seq<Resource>, searchQuery: string, showBookmarked: bool, isBookmarked: string -> bool)
    ensures forall r :: r in FilterResources(resources, searchQuery, showBookmarked, isBookmarked)
                        <==> r in resources && Retained(r, searchQuery, showBookmarked, isBookmarked)
  {
    var keep := RetainedTest(searchQuery, showBookmarked, isBookmarked);
    FilterIsOneKeep(resources, searchQuery, showBookmarked, isBookmarked);
    KeepComplete(resources, keep);
  }

  /** With no query and the bookmark toggle off, the catalog is shown unchanged. */
  lemma FilterNothing(resources: seq<Resource>, isBookmarked: string -> bool)
    ensures FilterResources(resources, "", false, isBookmarked) == resources
  {
  }

  /**
   * With the toggle off and a non-empty query, a resource is kept exactly when its
   * lower-cased name or description contains the lower-cased query at some offset.
   */
  lemma SearchOnlyMembership(resources: seq<Resource>, searchQuery: string, isBookmarked: string -> bool)
    requires searchQuery != ""
    ensures forall r :: r in FilterResources(resources, searchQuery, false, isBookmarked) <==>
      (&& r in resources
       && ((exists i :: OccursAt(Lower(r.name), Lower(searchQuery), i))
           || (exists i :: OccursAt(Lower(r.description), Lower(searchQuery), i))))
  {
    FilterMembership(resources, searchQuery, false, isBookmarked);
  }

  /**
   * The bookmarked view holds exactly the bookmarked resources of the search-only
   * view, in the same order.
   */
  lemma BookmarkedViewWithinSearch(resources: seq<Resource>, searchQuery: string, isBookmarked: string -> bool)
    ensures var searched := FilterResources(resources, searchQuery, false, isBookmarked);
      var marked := FilterResources(resources, searchQuery, true, isBookmarked);
      && (forall r :: r in marked <==> r in searched && isBookmarked(r.id))
      && IsSubsequence(marked, searched)
  {
    FilterMembership(resources, searchQuery, false, isBookmarked);
    FilterMembership(resources, searchQuery, true, isBookmarked);
    KeepIsSubsequence(FilterResources(resources, searchQuery, false, isBookmarked), BookmarkTest(isBookmarked));
  }

  /** Applying the same filter to its own output changes nothing. */
  lemma FilterIdempotent(resources: seq<Resource>, searchQuery: string, showBookmarked: bool, isBookmarked: string -> bool)
    ensures var once := FilterResources(resources, searchQuery, showBookmarked, isBookmarked);
      FilterResources(once, searchQuery, showBookmarked, isBookmarked) == once
  {
    var keep := RetainedTest(searchQuery, showBookmarked, isBookmarked);
    var once := FilterResources(resources, searchQuery, showBookmarked, isBookmarked);
    FilterIsOneKeep(resources, searchQuery, showBookmarked, isBookmarked);
    FilterIsOneKeep(once, searchQuery, showBookmarked, isBookmarked);
    KeepAll(once, keep);
  }

  /** The search ignores the letter case of the query. */
  lemma SearchIgnoresQueryCase(r: Resource, searchQuery: string)
    ensures MatchesQuery(r, searchQuery) == MatchesQuery(r, Lower(searchQuery))
  {
    LowerIdempotent(searchQuery);
  }

  /**
   * "Algebra Notes" matches "algebra" by its name and "Calc" by its description
   * "algebra review"; both stay, newest first.
   */
  lemma SearchScenario(isBookmarked: string -> bool)
    ensures var notes := Resource("1", "Algebra Notes", "basics", "u1", None, "T2", "a");
      var review := Resource("2", "Calc", "algebra review", "u2", None, "T1", "a");
      FilterResources([notes, review], "algebra", false, isBookmarked) == [notes, review]
  {
    var notes := Resource("1", "Algebra Notes", "basics", "u1", None, "T2", "a");
    var review := Resource("2", "Calc", "algebra review", "u2", None, "T1", "a");
    assert Lower("algebra") == "algebra";
    assert Lower(notes.name)[..7] == "algebra";
    assert Lower(review.description)[..7] == "algebra";
    KeepAll([notes, review], SearchTest("algebra"));
  }
}
