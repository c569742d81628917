/**
 * The strip of page numbers and "..." markers drawn between the Previous and Next
 * buttons of the pagination bar. The catalog is paged six resources at a time; the
 * pagination hook that turns that into `currentPage` and `totalPages` is not part of
 * this model, so the builder takes both as inputs.
 */
module PageStrip {

  /** One entry of the strip: a page number, or the "..." marker. */
  datatype PageItem = Page(n: int) | Ellipsis

  /** The page numbers of a strip, left to right, strictly increase. */
  ghost predicate Increasing(strip: seq<PageItem>) {
    forall i, j :: 0 <= i < j < |strip| && strip[i].Page? && strip[j].Page? ==> strip[i].n < strip[j].n
  }

  /**
   * Markers stand exactly at gaps: every "..." sits between two page numbers that
   * are more than one apart, and two page numbers side by side are consecutive.
   */
  ghost predicate GapsMarked(strip: seq<PageItem>) {
    && (forall i :: 0 <= i < |strip| && strip[i].Ellipsis? ==>
          0 < i < |strip| - 1 && strip[i - 1].Page? && strip[i + 1].Page? && strip[i - 1].n + 1 < strip[i + 1].n)
    && (forall i :: 0 <= i < |strip| - 1 && strip[i].Page? && strip[i + 1].Page? ==> strip[i + 1].n == strip[i].n + 1)
  }

  /** The set of page numbers a strip shows. */
  ghost function PageNumbers(strip: seq<PageItem>): set<int> {
    set i | 0 <= i < |strip| && strip[i].Page? :: strip[i].n
  }

  /**
   * Builds the strip. Up to three pages are all listed; beyond that the strip shows
   * the first page, the current page when it is strictly inside, the last page, and a
   * "..." wherever pages are skipped.
   */
  method BuildPageStrip(currentPage: int, totalPages: int) returns (pagesToShow: seq<PageItem>)
    ensures totalPages <= 3 ==> |pagesToShow| == (if totalPages < 0 then 0 else totalPages)
    ensures totalPages <= 3 ==> forall k :: 0 <= k < |pagesToShow| ==> pagesToShow[k] == Page(k + 1)
    ensures totalPages > 3 ==> WideStrip(pagesToShow, currentPage, totalPages)
    ensures Increasing(pagesToShow) && GapsMarked(pagesToShow)
  {
    pagesToShow := [];
    if totalPages <= 3 {
      var i := 1;
      while i <= totalPages
        invariant 1 <= i <= (if totalPages < 1 then 1 else totalPages + 1)
        invariant |pagesToShow| == i - 1
        invariant forall k :: 0 <= k < |pagesToShow| ==> pagesToShow[k] == Page(k + 1)
      {
        pagesToShow := pagesToShow + [Page(i)];
        i := i + 1;
      }
      Consecutive(pagesToShow);
    } else {
      var c, t := currentPage, totalPages;
      ghost var leftGap := if c > 2 then [Ellipsis] else [];
      ghost var middle := if 1 < c < t then [Page(c)] else [];
      ghost var rightGap := if c < t - 1 then [Ellipsis] else [];
      pagesToShow := pagesToShow + [Page(1)];
      if currentPage > 2 {
        pagesToShow := pagesToShow + [Ellipsis];
      }
      assert pagesToShow == [Page(1)] + leftGap;
      if currentPage > 1 && currentPage < totalPages {
        pagesToShow := pagesToShow + [Page(currentPage)];
      }
      assert pagesToShow == [Page(1)] + leftGap + middle;
      if currentPage < totalPages - 1 {
        pagesToShow := pagesToShow + [Ellipsis];
      }
      assert pagesToShow == [Page(1)] + leftGap + middle + rightGap;
      if totalPages != 1 {
        pagesToShow := pagesToShow + [Page(totalPages)];
      }
      assert pagesToShow == [Page(1)] + leftGap + middle + rightGap + [Page(t)];
      WideStripFacts(pagesToShow, c, t);
    }
  }

  /**
   * What a strip past three pages promises: it starts at page 1 and ends at the last
   * page, holds at most five entries, shows the current page exactly when it is in
   * range, and has one "..." for each side of the current page that skips pages.
   */
  ghost predicate WideStrip(s: seq<PageItem>, c: int, t: int) {
    && 3 <= |s| <= 5
    && s[0] == Page(1) && s[|s| - 1] == Page(t)
    && PageNumbers(s) == {1, t} + (if 1 <= c <= t then {c} else {})
    && multiset(s)[Ellipsis] == (if c > 2 then 1 else 0) + (if c < t - 1 then 1 else 0)
    && (1 < c < t ==> (s[1] == Ellipsis <==> c > 2))
    && (1 < c < t ==> (s[|s| - 2] == Ellipsis <==> c < t - 1))
    && Increasing(s) && GapsMarked(s)
  }

  lemma WideStripFacts(s: seq<PageItem>, c: int, t: int)
    requires t > 3
    requires s == [Page(1)] + (if c > 2 then [Ellipsis] else []) + (if 1 < c < t then [Page(c)] else [])
                 + (if c < t - 1 then [Ellipsis] else []) + [Page(t)]
    ensures WideStrip(s, c, t)
  {
    if c <= 1 || c >= t {
      assert s == [Page(1), Ellipsis, Page(t)];
      OneGap(c, t);
    } else if c == 2 {
      assert s == [Page(1), Page(2), Ellipsis, Page(t)];
      GapAfter(t);
    } else if c == t - 1 {
      assert s == [Page(1), Ellipsis, Page(c), Page(t)];
      GapBefore(t);
    } else {
      assert s == [Page(1), Ellipsis, Page(c), Ellipsis, Page(t)];
      TwoGaps(c, t);
    }
  }

  /** `[1, 2, ..., n]` has no gaps. */
  lemma Consecutive(s: seq<PageItem>)
    requires forall k :: 0 <= k < |s| ==> s[k] == Page(k + 1)
    ensures Increasing(s) && GapsMarked(s)
  {
  }

  /** `[1, ..., t]`: the current page is the first, the last, or out of range. */
  lemma OneGap(c: int, t: int)
    requires t > 3 && (c <= 1 || c >= t)
    ensures WideStrip([Page(1), Ellipsis, Page(t)], c, t)
  {
    var s := [Page(1), Ellipsis, Page(t)];
    assert PageNumbers(s) == {1, t} by {
      assert s[0].n == 1 && s[2].n == t;
      forall x | x in PageNumbers(s)
        ensures x in {1, t}
      {
        var i :| 0 <= i < |s| && s[i].Page? && s[i].n == x;
        assert i == 0 || i == 2;
      }
    }
    assert 1 <= c <= t ==> c == 1 || c == t;
    assert Increasing(s) && GapsMarked(s) by {
      assert s[0].n == 1 && s[2].n == t;
    }
  }

  /** `[1, 2, ..., t]`: the current page is the second. */
  lemma GapAfter(t: int)
    requires t > 3
    ensures WideStrip([Page(1), Page(2), Ellipsis, Page(t)], 2, t)
  {
    var s := [Page(1), Page(2), Ellipsis, Page(t)];
    assert PageNumbers(s) == {1, 2, t} by {
      assert s[0].n == 1 && s[1].n == 2 && s[3].n == t;
      forall x | x in PageNumbers(s)
        ensures x in {1, 2, t}
      {
        var i :| 0 <= i < |s| && s[i].Page? && s[i].n == x;
        assert i == 0 || i == 1 || i == 3;
      }
    }
    assert Increasing(s) && GapsMarked(s) by {
      assert s[0].n == 1 && s[1].n == 2 && s[3].n == t;
    }
  }

  /** `[1, ..., t - 1, t]`: the current page is the second to last. */
  lemma GapBefore(t: int)
    requires t > 3
    ensures WideStrip([Page(1), Ellipsis, Page(t - 1), Page(t)], t - 1, t)
  {
    var s := [Page(1), Ellipsis, Page(t - 1), Page(t)];
    assert PageNumbers(s) == {1, t - 1, t} by {
      assert s[0].n == 1 && s[2].n == t - 1 && s[3].n == t;
      forall x | x in PageNumbers(s)
        ensures x in {1, t - 1, t}
      {
        var i :| 0 <= i < |s| && s[i].Page? && s[i].n == x;
        assert i == 0 || i == 2 || i == 3;
      }
    }
    assert Increasing(s) && GapsMarked(s) by {
      assert s[0].n == 1 && s[2].n == t - 1 && s[3].n == t;
    }
  }

  /** `[1, ..., c, ..., t]`: the current page is well inside. */
  lemma TwoGaps(c: int, t: int)
    requires 2 < c < t - 1
    ensures WideStrip([Page(1), Ellipsis, Page(c), Ellipsis, Page(t)], c, t)
  {
    var s := [Page(1), Ellipsis, Page(c), Ellipsis, Page(t)];
    assert PageNumbers(s) == {1, c, t} by {
      assert s[0].n == 1 && s[2].n == c && s[4].n == t;
      forall x | x in PageNumbers(s)
        ensures x in {1, c, t}
      {
        var i :| 0 <= i < |s| && s[i].Page? && s[i].n == x;
        assert i == 0 || i == 2 || i == 4;
      }
    }
    assert multiset(s)[Ellipsis] == 2;
    assert Increasing(s) by {
      forall i, j | 0 <= i < j < |s| && s[i].Page? && s[j].Page?
        ensures s[i].n < s[j].n
      {
        assert i == 0 || i == 2;
        assert j == 2 || j == 4;
      }
    }
    assert GapsMarked(s) by {
      assert s[0].n == 1 && s[2].n == c && s[4].n == t;
    }
  }
}
