/** The browser's `localStorage` as the pages use it, as an explicit record,
    and the article record the pages keep there. */
module Storage {
  import opened Base
  import opened Seqs
  import News

  /** An article on the home page: the listing's article with the id and
      category the page adds to it. */
  datatype Item = Item(article: News.Article, id: string, category: string)

  /** The stored keys; the lists are held decoded, `None` when the key is
      absent. */
  datatype Store = Store(
    authToken: Option<string>,
    userEmail: Option<string>,
    userFullname: Option<string>,
    bookmarks: Option<seq<string>>,
    favorites: Option<seq<string>>,
    bookmarkedArticles: Option<seq<Item>>)

  /** `localStorage.clear()`. */
  const Cleared: Store := Store(None, None, None, None, None, None)

  /** A stored list, or the empty list when the key is absent. */
  function OrEmpty<T>(v: Option<seq<T>>): seq<T> {
    match v
    case None => []
    case Some(xs) => xs
  }

  /** The ids of a list of articles, in order. */
  function Ids(items: seq<Item>): (r: seq<string>)
    ensures |r| == |items| && forall i :: 0 <= i < |items| ==> r[i] == items[i].id
  {
    seq(|items|, i requires 0 <= i < |items| => items[i].id)
  }

  /** `items.filter((a) => a.id !== id)`. */
  function Unstore(items: seq<Item>, id: string): (r: seq<Item>)
    ensures id !in Ids(r)
    ensures forall i :: 0 <= i < |items| && items[i].id != id ==> items[i] in r
    ensures forall i :: 0 <= i < |r| ==> r[i] in items
  {
    Filter(items, (a: Item) => a.id != id)
  }

  /** The articles kept are the others, in their order and each as often
      as before, and a second removal changes nothing. */
  lemma UnstoreSpec(items: seq<Item>, id: string)
    ensures IsSubseq(Unstore(items, id), items)
    ensures forall a: Item :: a.id != id ==> Count(Unstore(items, id), a) == Count(items, a)
    ensures Unstore(Unstore(items, id), id) == Unstore(items, id)
  {
    forall a: Item | a.id != id
      ensures Count(Unstore(items, id), a) == Count(items, a)
    {
      FilterCount(items, (b: Item) => b.id != id, a);
    }
    FilterIsSubseq(items, (a: Item) => a.id != id);
    FilterIdempotent(items, (a: Item) => a.id != id);
  }
}
