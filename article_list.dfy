/**
 * The article list page (`ArticleList.js`): the status tabs, the local
 * "likes" ordering, the sort and page handlers, the like toggle over the
 * liked-articles map, and the avatar helpers. The fetched page of articles
 * is an input; the random placeholder like counts are not modelled (each
 * article carries its count).
 */
module ArticleList {
  import opened Common

  /** An article as the list holds it after fetching. */
  datatype ListedArticle = ListedArticle(id: int, title: string, statusEnum: string, likeCount: int, isLiked: bool)

  /** `getFilterByTab(tabIndex)`; `None` shows every article. */
  function FilterByTab(tab: int): (status: Option<string>)
    ensures status.None? <==> !(1 <= tab <= 4)
  {
    match tab
    case 1 => Some("PUBLISHED")
    case 2 => Some("COMING_SOON")
    case 3 => Some("UNDER_REVIEW")
    case 4 => Some("RE_WRITE")
    case _ => None
  }

  /** The tabs show four distinct statuses. */
  lemma TabsDistinct(i: int, j: int)
    requires 1 <= i <= 4 && 1 <= j <= 4 && i != j
    ensures FilterByTab(i) != FilterByTab(j)
  {
  }

  /** The articles of the fetched page kept under the current tab. */
  function WithStatus(articles: seq<ListedArticle>, status: Option<string>): (r: seq<ListedArticle>)
    ensures status.None? ==> r == articles
    ensures status.Some? ==> forall a :: a in r <==> a in articles && a.statusEnum == status.value
    ensures |r| <= |articles|
  {
    if status.None? then articles else Filter(articles, (a: ListedArticle) => a.statusEnum == status.value)
  }

  /** Only 'likes' is sorted locally; the API is asked for 'id' instead. */
  function ApiSortField(sortField: string): (f: string)
    ensures sortField == "likes" ==> f == "id"
    ensures sortField != "likes" ==> f == sortField
  {
    if sortField == "likes" then "id" else sortField
  }

  // ---------------------------------------------------------------------
  // Ordering by like count

  /** `a` may come before `b`: descending or ascending by `likeCount`. */
  predicate Before(a: ListedArticle, b: ListedArticle, descending: bool)
  {
    if descending then a.likeCount >= b.likeCount else a.likeCount <= b.likeCount
  }

  predicate Ordered(s: seq<ListedArticle>, descending: bool)
  {
    forall i, j :: 0 <= i < j < |s| ==> Before(s[i], s[j], descending)
  }

  /** `a` may come before every element of `s`. */
  predicate BeforeAll(a: ListedArticle, s: seq<ListedArticle>, descending: bool)
  {
    forall k :: 0 <= k < |s| ==> Before(a, s[k], descending)
  }

  function Insert(x: ListedArticle, s: seq<ListedArticle>, descending: bool): (r: seq<ListedArticle>)
    ensures multiset(r) == multiset(s) + multiset{x}
    decreases |s|
  {
    if s == [] || Before(x, s[0], descending) then [x] + s
    else
      assert s == [s[0]] + s[1..];
      [s[0]] + Insert(x, s[1..], descending)
  }

  /** What may come before `x` and before all of `s` may come before all
   *  of their insertion. */
  lemma {:induction false} InsertKeepsBound(y: ListedArticle, x: ListedArticle, s: seq<ListedArticle>, descending: bool)
    requires Before(y, x, descending) && BeforeAll(y, s, descending)
    ensures BeforeAll(y, Insert(x, s, descending), descending)
    decreases |s|
  {
    if s != [] && !Before(x, s[0], descending) {
      InsertKeepsBound(y, x, s[1..], descending);
    }
  }

  lemma {:induction false} InsertOrdered(x: ListedArticle, s: seq<ListedArticle>, descending: bool)
    requires Ordered(s, descending)
    ensures Ordered(Insert(x, s, descending), descending)
    decreases |s|
  {
    if s == [] {
    } else if Before(x, s[0], descending) {
      assert BeforeAll(x, s, descending) by {
        forall k | 0 <= k < |s| ensures Before(x, s[k], descending) {
          if k > 0 {
            assert Before(s[0], s[k], descending);
          }
        }
      }
    } else {
      InsertOrdered(x, s[1..], descending);
      assert BeforeAll(s[0], s[1..], descending) by {
        forall k | 0 <= k < |s[1..]| ensures Before(s[0], s[1..][k], descending) {
          assert s[1..][k] == s[k + 1];
        }
      }
      InsertKeepsBound(s[0], x, s[1..], descending);
    }
  }

  /** `articlesData.sort(...)` for the 'likes' field. */
  function SortByLikes(s: seq<ListedArticle>, descending: bool): (r: seq<ListedArticle>)
    ensures multiset(r) == multiset(s)
    ensures Ordered(r, descending)
    decreases |s|
  {
    if s == [] then []
    else
      assert s == [s[0]] + s[1..];
      var rest := SortByLikes(s[1..], descending);
      InsertOrdered(s[0], rest, descending);
      Insert(s[0], rest, descending)
  }

  /** Marks each article liked or not from the stored liked map. */
  function MarkLiked(articles: seq<ListedArticle>, liked: set<int>): (r: seq<ListedArticle>)
    ensures |r| == |articles|
    ensures forall k :: 0 <= k < |r| ==> r[k] == articles[k].(isLiked := articles[k].id in liked)
  {
    seq(|articles|, k requires 0 <= k < |articles| => articles[k].(isLiked := articles[k].id in liked))
  }

  /** Every article's `isLiked` agrees with the liked map. */
  predicate Consistent(articles: seq<ListedArticle>, liked: set<int>)
  {
    forall k :: 0 <= k < |articles| ==> (articles[k].isLiked <==> articles[k].id in liked)
  }

  /** What `fetchArticles` shows: the page filtered by tab, marked from the
   *  liked map, and ordered by likes when that is the sort field. */
  function Displayed(page: seq<ListedArticle>, tab: int, liked: set<int>, sortField: string, sortDirection: string)
    : (r: seq<ListedArticle>)
    ensures Consistent(r, liked)
    ensures multiset(r) == multiset(MarkLiked(WithStatus(page, FilterByTab(tab)), liked))
    ensures sortField == "likes" ==> Ordered(r, sortDirection == "desc")
    ensures sortField != "likes" ==> r == MarkLiked(WithStatus(page, FilterByTab(tab)), liked)
  {
    var marked := MarkLiked(WithStatus(page, FilterByTab(tab)), liked);
    if sortField == "likes" then
      var sorted := SortByLikes(marked, sortDirection == "desc");
      assert forall k :: 0 <= k < |sorted| ==> sorted[k] in multiset(marked);
      sorted
    else marked
  }

  // ---------------------------------------------------------------------
  // Like toggle

  /** The articles after toggling the like on `id`, which was liked
   *  (`wasLiked`) or not. */
  function ToggleLikeIn(articles: seq<ListedArticle>, id: int, wasLiked: bool): (r: seq<ListedArticle>)
    ensures |r| == |articles|
    ensures forall k :: 0 <= k < |r| && articles[k].id != id ==> r[k] == articles[k]
    ensures forall k :: 0 <= k < |r| && articles[k].id == id ==>
      r[k] == articles[k].(likeCount := articles[k].likeCount + (if wasLiked then -1 else 1), isLiked := !wasLiked)
  {
    seq(|articles|, k requires 0 <= k < |articles| =>
      if articles[k].id == id
      then articles[k].(likeCount := articles[k].likeCount + (if wasLiked then -1 else 1), isLiked := !wasLiked)
      else articles[k])
  }

  /** Toggling twice on a consistent list gives the list back. */
  lemma ToggleTwiceRestores(articles: seq<ListedArticle>, liked: set<int>, id: int)
    requires Consistent(articles, liked)
    ensures var once := ToggleLikeIn(articles, id, id in liked);
      ToggleLikeIn(once, id, id !in liked) == articles
  {
    var once := ToggleLikeIn(articles, id, id in liked);
    var twice := ToggleLikeIn(once, id, id !in liked);
    forall k | 0 <= k < |articles| ensures twice[k] == articles[k] {
      if articles[k].id == id {
        assert articles[k].isLiked == (id in liked);
      }
    }
  }

  // ---------------------------------------------------------------------
  // Page state

  /** The sort after `handleSort(field)`: the same field flips the
   *  direction, a new field starts descending. */
  function NextSort(field: string, sortField: string, sortDirection: string): (r: (string, string))
    ensures r.0 == field
    ensures field == sortField ==> r.1 == (if sortDirection == "asc" then "desc" else "asc")
    ensures field != sortField ==> r.1 == "desc"
  {
    if field == sortField then (sortField, if sortDirection == "asc" then "desc" else "asc")
    else (field, "desc")
  }

  /** Sorting twice on the same field restores an 'asc' or 'desc'
   *  direction. */
  lemma SortTwiceRestores(field: string, sortDirection: string)
    requires sortDirection == "asc" || sortDirection == "desc"
    ensures var once := NextSort(field, field, sortDirection);
      NextSort(field, once.0, once.1) == (field, sortDirection)
  {
  }

  /** `Math.ceil(total / size)`, the number of pages shown. */
  function PageCount(total: nat, size: nat): (n: nat)
    requires size > 0
    ensures n * size >= total
    ensures n > 0 ==> (n - 1) * size < total
  {
    (total + size - 1) / size
  }

  class ArticleListState {
    var page: int
    var size: int
    var sortField: string
    var sortDirection: string
    var selectedTab: int
    var liked: set<int>
    var articles: seq<ListedArticle>

    constructor ()
      ensures page == 0 && size == 6 && sortField == "id" && sortDirection == "desc"
      ensures selectedTab == 0 && liked == {} && articles == []
    {
      page, size, sortField, sortDirection := 0, 6, "id", "desc";
      selectedTab, liked, articles := 0, {}, [];
    }

    /** `handleSort(field)`: always back to the first page. */
    method HandleSort(field: string)
      modifies this
      ensures (sortField, sortDirection) == NextSort(field, old(sortField), old(sortDirection))
      ensures page == 0
      ensures size == old(size) && selectedTab == old(selectedTab) && liked == old(liked) && articles == old(articles)
    {
      if field == sortField {
        sortDirection := if sortDirection == "asc" then "desc" else "asc";
      } else {
        sortField := field;
        sortDirection := "desc";
      }
      page := 0;
    }

    /** `handleToggleLike(articleId)`: flips the id in the liked map and
     *  moves only that article's count by one. */
    method HandleToggleLike(articleId: int)
      modifies this
      ensures liked == if articleId in old(liked) then old(liked) - {articleId} else old(liked) + {articleId}
      ensures articles == ToggleLikeIn(old(articles), articleId, articleId in old(liked))
      ensures Consistent(old(articles), old(liked)) ==> Consistent(articles, liked)
      ensures page == old(page) && size == old(size) && sortField == old(sortField)
      ensures sortDirection == old(sortDirection) && selectedTab == old(selectedTab)
    {
      var wasLiked := articleId in liked;
      if wasLiked {
        liked := liked - {articleId};
      } else {
        liked := liked + {articleId};
      }
      articles := ToggleLikeIn(articles, articleId, wasLiked);
    }

    /** `handleChangePage`: the pager counts from 1, the API from 0. */
    method HandleChangePage(newPage: int)
      modifies this`page
      ensures page == newPage - 1
    {
      page := newPage - 1;
    }

    /** `handleChangeSize` and `handleTabChange` go back to the first
     *  page. */
    method HandleChangeSize(newSize: int)
      modifies this`size, this`page
      ensures size == newSize && page == 0
    {
      size := newSize;
      page := 0;
    }

    method HandleTabChange(tab: int)
      modifies this`selectedTab, this`page
      ensures selectedTab == tab && page == 0
    {
      selectedTab := tab;
      page := 0;
    }
  }

  // ---------------------------------------------------------------------
  // Avatar helpers

  const COLORS: seq<string> := ["#f44336", "#e91e63", "#9c27b0", "#673ab7", "#3f51b5", "#2196f3",
                                "#03a9f4", "#00bcd4", "#009688", "#4caf50", "#8bc34a", "#cddc39",
                                "#ffeb3b", "#ffc107", "#ff9800", "#ff5722", "#795548", "#607d8b"]

  /** `getRandomColor(id)`: the palette entry at `id % 18`. */
  function AvatarColor(id: nat): (c: string)
    ensures c in COLORS
  {
    COLORS[id % |COLORS|]
  }

  /** Ids 18 apart get the same colour. */
  lemma AvatarColorPeriodic(id: nat)
    ensures AvatarColor(id + 18) == AvatarColor(id)
  {
    assert |COLORS| == 18;
    assert (id + 18) % 18 == id % 18;
  }

  /** `getInitials(title)`. */
  function Initials(title: string): (r: string)
    ensures |r| == 1
    ensures title == "" ==> r == "?"
    ensures title != "" ==> r == [UpperChar(title[0])]
  {
    if title == "" then "?" else [UpperChar(title[0])]
  }
}
