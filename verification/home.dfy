/** The home page's state logic: restoring the session from storage, the
    article list built from the listing response, the bookmark and favorite
    toggles and the navigation labels. */
module Home {
  import opened Base
  import opened Strings
  import opened Seqs
  import opened Storage
  import Decimal
  import News

  /** What the page shows about the user. */
  datatype Session = Session(loggedIn: bool, displayName: string, bookmarks: seq<string>, favorites: seq<string>)

  const SignedOut: Session := Session(false, "", [], [])

  const Categories: seq<string> := ["general", "business", "technology", "entertainment", "health", "science", "sports"]

  /** The mount effect: logged in when there is a token and an email or a
      name; the saved lists are loaded only then. */
  function Restore(store: Store): (s: Session)
    ensures s.loggedIn <==> Has(store.authToken) && (Has(store.userEmail) || Has(store.userFullname))
    ensures s.loggedIn && Has(store.userFullname) ==> s.displayName == store.userFullname.value
    ensures s.loggedIn && !Has(store.userFullname) ==> s.displayName == store.userEmail.value
    ensures s.loggedIn ==> s.displayName != ""
    ensures s.loggedIn ==> s.bookmarks == OrEmpty(store.bookmarks) && s.favorites == OrEmpty(store.favorites)
    ensures !s.loggedIn ==> s == SignedOut
  {
    if Has(store.authToken) && (Has(store.userEmail) || Has(store.userFullname)) then
      var name := if Has(store.userFullname) then store.userFullname.value else store.userEmail.value;
      Session(true, name, OrEmpty(store.bookmarks), OrEmpty(store.favorites))
    else SignedOut
  }

  /** `handleLogout`: storage is cleared and the session signed out. */
  function Logout(store: Store): (r: (Store, Session))
    ensures r.0 == Cleared && r.1 == SignedOut
  {
    (Cleared, SignedOut)
  }

  /** After a logout, reloading the page restores no session. */
  lemma LogoutThenRestore(store: Store)
    ensures Restore(Logout(store).0) == SignedOut
  {
  }

  /** `${article.url}-${index}`. */
  function ItemId(url: Option<string>, index: nat): string {
    Show(url) + "-" + Decimal.NatToString(index)
  }

  /** `fetchNews`: the listing's articles with ids and the selected category;
      a response without `articles`, or a failed request, gives none. */
  function FetchNews(selected: string, response: Fetched<Option<seq<News.Article>>>): (items: seq<Item>)
    ensures response.Threw? || response.value.None? ==> items == []
    ensures response.Got? && response.value.Some? ==>
      var arts := response.value.value;
      && |items| == |arts|
      && forall i :: 0 <= i < |items| ==>
           items[i] == Item(arts[i], ItemId(arts[i].url, i), selected)
  {
    match response
    case Threw => []
    case Got(None) => []
    case Got(Some(arts)) =>
      seq(|arts|, i requires 0 <= i < |arts| => Item(arts[i], ItemId(arts[i].url, i), selected))
  }

  /** The text after the last `-` (all of it when there is none). */
  function AfterLastDash(s: string): (r: string)
    ensures '-' !in r
    decreases |s|
  {
    if s == [] || s[|s| - 1] == '-' then []
    else AfterLastDash(s[..|s| - 1]) + [s[|s| - 1]]
  }

  lemma {:induction false} AfterLastDashOf(u: string, d: string)
    requires '-' !in d
    ensures AfterLastDash(u + "-" + d) == d
    decreases |d|
  {
    var s := u + "-" + d;
    if d == [] {
      assert s[|s| - 1] == '-';
    } else {
      var d' := d[..|d| - 1];
      assert s[..|s| - 1] == u + "-" + d';
      assert d[|d| - 1] in d;
      AfterLastDashOf(u, d');
      assert d' + [d[|d| - 1]] == d;
    }
  }

  /** The suffix of an id after its last dash is its index. */
  lemma IdSuffixIsIndex(url: Option<string>, index: nat)
    ensures AfterLastDash(ItemId(url, index)) == Decimal.NatToString(index)
  {
    var d := Decimal.NatToString(index);
    AfterLastDashOf(Show(url), d);
  }

  /** The ids of one listing are pairwise distinct, whatever the urls. */
  lemma IdsDistinct(selected: string, response: Fetched<Option<seq<News.Article>>>, i: nat, j: nat)
    requires i < |FetchNews(selected, response)| && j < |FetchNews(selected, response)| && i != j
    ensures FetchNews(selected, response)[i].id != FetchNews(selected, response)[j].id
  {
    var items := FetchNews(selected, response);
    var arts := response.value.value;
    IdSuffixIsIndex(arts[i].url, i);
    IdSuffixIsIndex(arts[j].url, j);
    if items[i].id == items[j].id {
      Decimal.NatToStringInjective(i, j);
    }
  }

  /** Flip the membership of `x`: remove every occurrence, or append it. */
  function Toggle<T(==)>(xs: seq<T>, x: T): (r: seq<T>)
    ensures x in r <==> x !in xs
    ensures x !in xs ==> r == xs + [x]
  {
    if x in xs then
      RemoveSpec(xs, x);
      Remove(xs, x)
    else xs + [x]
  }

  /** Every other element keeps its number of occurrences, and the list
      keeps its order apart from `x`. */
  lemma ToggleKeepsOthers<T>(xs: seq<T>, x: T)
    ensures forall y :: y != x ==> Count(Toggle(xs, x), y) == Count(xs, y)
    ensures x in xs ==> Toggle(xs, x) == Remove(xs, x) && IsSubseq(Toggle(xs, x), xs)
  {
    if x in xs {
      RemoveSpec(xs, x);
    } else {
      forall y | y != x
        ensures Count(Toggle(xs, x), y) == Count(xs, y)
      {
        CountAppend(xs, x, y);
      }
    }
  }

  /** `toggleFavorite`. */
  function ToggleFavorite(favorites: seq<string>, category: string): seq<string> {
    Toggle(favorites, category)
  }

  /** Toggling an absent favorite twice gives the list back. */
  lemma ToggleFavoriteTwiceAbsent(favorites: seq<string>, c: string)
    requires c !in favorites
    ensures ToggleFavorite(ToggleFavorite(favorites, c), c) == favorites
  {
    RemoveAppended(favorites, c);
  }

  /** Toggling a present favorite twice moves it to the end, once. */
  lemma ToggleFavoriteTwicePresent(favorites: seq<string>, c: string)
    requires c in favorites
    ensures ToggleFavorite(ToggleFavorite(favorites, c), c) == Remove(favorites, c) + [c]
  {
  }

  /** The first loaded article with the id. */
  function Find(items: seq<Item>, id: string): (r: Option<Item>)
    ensures r.Some? ==> r.value.id == id && r.value in items
    ensures r.None? <==> id !in Ids(items)
    decreases |items|
  {
    if items == [] then None
    else if items[0].id == id then Some(items[0])
    else
      var r := Find(items[1..], id);
      assert Ids(items) == [items[0].id] + Ids(items[1..]);
      r
  }

  /** The article found is the first one with the id: none before it has it. */
  lemma {:induction false} FindIsFirst(items: seq<Item>, id: string)
    ensures Find(items, id).Some? ==>
      exists i :: 0 <= i < |items| && items[i] == Find(items, id).value
                  && forall j :: 0 <= j < i ==> items[j].id != id
    decreases |items|
  {
    if items != [] && items[0].id != id && Find(items, id).Some? {
      FindIsFirst(items[1..], id);
      var k :| 0 <= k < |items[1..]| && items[1..][k] == Find(items, id).value
               && forall j :: 0 <= j < k ==> items[1..][j].id != id;
      forall j | 0 <= j < k + 1 ensures items[j].id != id {
        if j > 0 { assert items[j] == items[1..][j - 1]; }
      }
      assert items[k + 1] == Find(items, id).value;
    }
  }

  /** `toggleBookmark`: the new id list and the new stored article list. */
  function ToggleBookmark(articles: seq<Item>, bookmarks: seq<string>, stored: seq<Item>, id: string): (r: (seq<string>, seq<Item>))
    ensures Find(articles, id).None? ==> r == (bookmarks, stored)
    ensures Find(articles, id).Some? ==> r.0 == Toggle(bookmarks, id)
    ensures Find(articles, id).Some? && id !in bookmarks ==>
      && |stored| <= |r.1| <= |stored| + 1 && r.1[..|stored|] == stored
      && (|r.1| > |stored| <==> id !in Ids(stored))
      && (|r.1| > |stored| ==> r.1[|stored|] == Find(articles, id).value)
  {
    match Find(articles, id)
    case None => (bookmarks, stored)
    case Some(article) =>
      var ids := Toggle(bookmarks, id);
      var kept :=
        if id in ids then (if id in Ids(stored) then stored else stored + [article])
        else Unstore(stored, id);
      (ids, kept)
  }

  /** After a toggle the id is bookmarked exactly when an article with that
      id is stored, and the stored list never gains a second copy of it. */
  lemma BookmarkSync(articles: seq<Item>, bookmarks: seq<string>, stored: seq<Item>, id: string)
    requires id in Ids(articles)
    ensures var r := ToggleBookmark(articles, bookmarks, stored, id);
      && (id in r.0 <==> id !in bookmarks)
      && (id in r.0 <==> id in Ids(r.1))
      && Count(Ids(r.1), id) <= Max(1, Count(Ids(stored), id))
  {
    var r := ToggleBookmark(articles, bookmarks, stored, id);
    var article := Find(articles, id).value;
    if id in r.0 {
      if id !in Ids(stored) {
        assert Ids(stored + [article]) == Ids(stored) + [id];
        CountAppend(Ids(stored), id, id);
        CountPositiveIff(Ids(stored), id);
        assert Ids(r.1)[|stored|] == id;
      }
    } else {
      CountPositiveIff(Ids(r.1), id);
    }
  }

  /** Un-bookmarking keeps the other stored articles, in order. */
  lemma UnbookmarkKeepsOthers(articles: seq<Item>, bookmarks: seq<string>, stored: seq<Item>, id: string)
    requires id in Ids(articles) && id in bookmarks
    ensures ToggleBookmark(articles, bookmarks, stored, id).1 == Unstore(stored, id)
    ensures IsSubseq(ToggleBookmark(articles, bookmarks, stored, id).1, stored)
  {
    UnstoreSpec(stored, id);
  }

  /** The header's navigation labels. */
  const NavLabels: seq<string> := ["PODCAST", "POLITICS", "TECH", "INVESTIGATIONS", "MARKETS", "GOLD", "CRYPTO", "SPORTS", "MORE"]

  /** `navToCategory`: every label maps into the category list. */
  function NavToCategory(tab: string): (c: string)
    ensures c in Categories
    ensures tab !in NavLabels ==> c == "general"
  {
    if tab in ["PODCAST", "POLITICS", "INVESTIGATIONS", "MORE"] then "general"
    else if tab in ["TECH", "CRYPTO"] then "technology"
    else if tab in ["MARKETS", "GOLD"] then "business"
    else if tab == "SPORTS" then "sports"
    else "general"
  }
}
