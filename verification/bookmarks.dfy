/** The bookmarks page: shown only with a token, it lists the stored
    articles and removes one or all of them. */
module Bookmarks {
  import opened Base
  import opened Seqs
  import opened Storage

  /** The page's two lists: bookmarked ids and stored articles. */
  datatype Shelf = Shelf(bookmarks: seq<string>, articles: seq<Item>)

  datatype Page =
    | Redirected
    | Shown(shelf: Shelf)

  /** The mount effect: without a token the user is sent home and nothing
      is loaded; otherwise the saved lists are read. */
  function Open(store: Store): (p: Page)
    ensures p.Redirected? <==> !Has(store.authToken)
    ensures p.Shown? ==> p.shelf == Shelf(OrEmpty(store.bookmarks), OrEmpty(store.bookmarkedArticles))
  {
    if !Has(store.authToken) then Redirected
    else Shown(Shelf(OrEmpty(store.bookmarks), OrEmpty(store.bookmarkedArticles)))
  }

  /** The shelf written back to storage. */
  function Save(store: Store, shelf: Shelf): Store {
    store.(bookmarks := Some(shelf.bookmarks), bookmarkedArticles := Some(shelf.articles))
  }

  /** `removeBookmark`: the id leaves both lists, and the new lists are
      stored. */
  function RemoveBookmark(shelf: Shelf, store: Store, id: string): (r: (Shelf, Store))
    ensures id !in r.0.bookmarks && id !in Ids(r.0.articles)
    ensures r.1 == Save(store, r.0)
  {
    RemoveSpec(shelf.bookmarks, id);
    var s := Shelf(Remove(shelf.bookmarks, id), Unstore(shelf.articles, id));
    (s, Save(store, s))
  }

  /** Everything else on the shelf stays, in order, with its multiplicity. */
  lemma RemoveKeepsOthers(shelf: Shelf, store: Store, id: string)
    ensures var s := RemoveBookmark(shelf, store, id).0;
      && (forall x :: x != id ==> Count(s.bookmarks, x) == Count(shelf.bookmarks, x))
      && IsSubseq(s.bookmarks, shelf.bookmarks)
      && IsSubseq(s.articles, shelf.articles)
      && (forall i :: 0 <= i < |shelf.articles| && shelf.articles[i].id != id ==> shelf.articles[i] in s.articles)
      && (forall a: Item :: a.id != id ==> Count(s.articles, a) == Count(shelf.articles, a))
  {
    RemoveSpec(shelf.bookmarks, id);
    UnstoreSpec(shelf.articles, id);
  }

  /** Removing the same bookmark twice is removing it once. */
  lemma RemoveIdempotent(shelf: Shelf, store: Store, id: string)
    ensures var r := RemoveBookmark(shelf, store, id);
      RemoveBookmark(r.0, r.1, id) == r
  {
    Seqs.RemoveIdempotent(shelf.bookmarks, id);
    UnstoreSpec(shelf.articles, id);
    var r := RemoveBookmark(shelf, store, id);
    assert Save(r.1, r.0) == r.1;
  }

  /** `clearAllBookmarks`: only a confirmed clear empties both lists and
      removes both keys; a declined one changes nothing. */
  function ClearAll(shelf: Shelf, store: Store, confirmed: bool): (r: (Shelf, Store))
    ensures confirmed ==> r.0 == Shelf([], []) && r.1.bookmarks.None? && r.1.bookmarkedArticles.None?
    ensures confirmed ==> r.1.authToken == store.authToken && r.1.favorites == store.favorites
    ensures confirmed ==> r.1.userEmail == store.userEmail && r.1.userFullname == store.userFullname
    ensures !confirmed ==> r == (shelf, store)
  {
    if confirmed then (Shelf([], []), store.(bookmarks := None, bookmarkedArticles := None))
    else (shelf, store)
  }

  /** After a confirmed clear, reopening the page shows an empty shelf. */
  lemma ClearThenOpen(shelf: Shelf, store: Store)
    requires Has(store.authToken)
    ensures Open(ClearAll(shelf, store, true).1) == Shown(Shelf([], []))
  {
  }
}
