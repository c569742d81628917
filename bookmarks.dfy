/**
 * The bookmark button of a resource card. The bookmark store itself belongs to a hook
 * outside this model; the page only asks whether an id is bookmarked and then calls
 * the hook's remove or add. Here the store is a set of ids and a successful call
 * removes or adds that one id.
 */
module Bookmarks {
  import opened Catalog

  /** The hook call the button makes. */
  datatype BookmarkCall = AddBookmark(id: string) | RemoveBookmark(id: string)

  /** Toggling removes a bookmark that is there and adds one that is not. */
  function ToggleCall(bookmarks: set<string>, id: string): (call: BookmarkCall)
    ensures call.id == id
    ensures call.RemoveBookmark? <==> id in bookmarks
  {
    if id in bookmarks then RemoveBookmark(id) else AddBookmark(id)
  }

  /** The store after a successful hook call. */
  function Apply(bookmarks: set<string>, call: BookmarkCall): (after: set<string>)
    ensures call.id in after <==> call.AddBookmark?
    ensures forall other :: other != call.id ==> (other in after <==> other in bookmarks)
  {
    match call
    case AddBookmark(id) => bookmarks + {id}
    case RemoveBookmark(id) => bookmarks - {id}
  }

  /** The membership test the filter is given. */
  function IsBookmarked(bookmarks: set<string>): string -> bool {
    id => id in bookmarks
  }

  /** A toggle flips the membership of its id and of no other. */
  lemma ToggleFlips(bookmarks: set<string>, id: string)
    ensures var after := Apply(bookmarks, ToggleCall(bookmarks, id));
      && (id in after <==> id !in bookmarks)
      && forall other :: other != id ==> (other in after <==> other in bookmarks)
  {
  }

  /** Toggling twice restores the store. */
  lemma ToggleTwice(bookmarks: set<string>, id: string)
    ensures var once := Apply(bookmarks, ToggleCall(bookmarks, id));
      Apply(once, ToggleCall(once, id)) == bookmarks
  {
  }

  /**
   * In the bookmarked-only view, un-bookmarking a resource hides it once the filter
   * runs again, and bookmarking a resource that matches the search shows it.
   */
  lemma ToggleUpdatesBookmarkedView(resources: seq<Resource>, searchQuery: string, bookmarks: set<string>, id: string)
    ensures var after := Apply(bookmarks, ToggleCall(bookmarks, id));
      var view := FilterResources(resources, searchQuery, true, IsBookmarked(after));
      && (id in bookmarks ==> forall r :: r in view ==> r.id != id)
      && (id !in bookmarks ==> forall r :: r in resources && r.id == id && (searchQuery == "" || MatchesQuery(r, searchQuery)) ==> r in view)
  {
    var after := Apply(bookmarks, ToggleCall(bookmarks, id));
    FilterMembership(resources, searchQuery, true, IsBookmarked(after));
  }
}
