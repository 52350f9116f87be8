/**
 * The administrator dashboard (`AdminDashboard.js`): the statistics
 * computed from the fetched articles and categories, the delete handler
 * that recomputes them, and the table's page slice.
 */
module AdminDashboard {
  import opened Common

  /** An article as the dashboard reads it; `categoryId` 0 stands for a
   *  missing (falsy) category. */
  datatype DashArticle = DashArticle(id: int, title: string, statusEnum: string, categoryId: int, createDateTime: string)

  datatype DashCategory = DashCategory(id: int, title: string)

  /** One entry of `articlesPerCategory`. */
  datatype CategoryEntry = CategoryEntry(name: string, value: nat)

  /** One entry of `recentActivity`. */
  datatype Activity = Activity(id: int, title: string, action: string, date: string, kind: string)

  datatype Stats = Stats(totalArticles: nat, publishedArticles: nat, comingSoonArticles: nat,
                         underReviewArticles: nat, rewriteArticles: nat, totalCategories: nat,
                         articlesPerCategory: seq<CategoryEntry>, recentActivity: seq<Activity>)

  const RECENT_LIMIT := 10

  /** `articles.filter(a => a.statusEnum === status).length`. */
  function CountStatus(articles: seq<DashArticle>, status: string): (n: nat)
    ensures n <= |articles|
  {
    if articles == [] then 0
    else CountStatus(articles[1..], status) + (if articles[0].statusEnum == status then 1 else 0)
  }

  /** The four status counts never add up to more than the total. */
  lemma {:induction false} StatusCountsBounded(articles: seq<DashArticle>)
    ensures CountStatus(articles, "PUBLISHED") + CountStatus(articles, "COMING_SOON")
          + CountStatus(articles, "UNDER_REVIEW") + CountStatus(articles, "RE_WRITE") <= |articles|
  {
    if articles != [] {
      StatusCountsBounded(articles[1..]);
    }
  }

  /** The number of articles counted under category `id`: those whose
   *  (truthy) `categoryId` is `id`. Counted from the end, as the loop
   *  that fills `categoryCount` grows its prefix. */
  function CountInCategory(articles: seq<DashArticle>, id: int): nat
  {
    if articles == [] then 0
    else
      var last := articles[|articles| - 1];
      CountInCategory(articles[..|articles| - 1], id) + (if last.categoryId != 0 && last.categoryId == id then 1 else 0)
  }

  /** Articles without a category are counted under no category. */
  lemma {:induction false} UncategorisedNotCounted(articles: seq<DashArticle>, a: DashArticle, id: int)
    requires a.categoryId == 0
    ensures CountInCategory(articles + [a], id) == CountInCategory(articles, id)
  {
    assert (articles + [a])[..|articles|] == articles;
  }

  /** Counting from either end gives the same number. */
  lemma {:induction false} CountInCategoryFront(articles: seq<DashArticle>, id: int)
    requires articles != []
    ensures CountInCategory(articles, id) ==
      (if articles[0].categoryId != 0 && articles[0].categoryId == id then 1 else 0) + CountInCategory(articles[1..], id)
    decreases |articles|
  {
    if |articles| > 1 {
      var init := articles[..|articles| - 1];
      CountInCategoryFront(init, id);
      assert init[1..] == articles[1..][..|articles[1..]| - 1];
    } else {
      assert articles[..0] == [] && articles[1..] == [];
    }
  }

  /** The `articlesPerCategory` list: one entry per category, in category
   *  order. */
  function PerCategory(articles: seq<DashArticle>, categories: seq<DashCategory>): (r: seq<CategoryEntry>)
    ensures |r| == |categories|
  {
    seq(|categories|, k requires 0 <= k < |categories| =>
      CategoryEntry(categories[k].title, CountInCategory(articles, categories[k].id)))
  }

  /** Sum of the `value`s of a list of category entries. */
  function SumValues(entries: seq<CategoryEntry>): nat
  {
    if entries == [] then 0 else entries[0].value + SumValues(entries[1..])
  }

  /** How many categories carry the id `id`. */
  function Occurrences(categories: seq<DashCategory>, id: int): nat
  {
    if categories == [] then 0
    else (if categories[0].id == id then 1 else 0) + Occurrences(categories[1..], id)
  }

  predicate DistinctIds(categories: seq<DashCategory>)
  {
    forall i, j :: 0 <= i < j < |categories| ==> categories[i].id != categories[j].id
  }

  lemma {:induction false} DistinctOccursOnce(categories: seq<DashCategory>, id: int)
    requires DistinctIds(categories)
    ensures Occurrences(categories, id) <= 1
  {
    if categories != [] {
      DistinctOccursOnce(categories[1..], id);
      if categories[0].id == id {
        NotOccurring(categories[1..], id);
      }
    }
  }

  lemma {:induction false} NotOccurring(categories: seq<DashCategory>, id: int)
    requires forall k :: 0 <= k < |categories| ==> categories[k].id != id
    ensures Occurrences(categories, id) == 0
  {
    if categories != [] {
      NotOccurring(categories[1..], id);
    }
  }

  lemma {:induction false} PerCategoryTail(articles: seq<DashArticle>, categories: seq<DashCategory>)
    requires categories != []
    ensures PerCategory(articles, categories)[1..] == PerCategory(articles, categories[1..])
  {
  }

  lemma {:induction false} NoArticlesSumZero(categories: seq<DashCategory>)
    ensures SumValues(PerCategory([], categories)) == 0
  {
    if categories != [] {
      PerCategoryTail([], categories);
      NoArticlesSumZero(categories[1..]);
    }
  }

  /** One more article adds one to the entry of every category carrying
   *  its (truthy) category id. */
  lemma {:induction false} SumValuesSnoc(init: seq<DashArticle>, last: DashArticle, categories: seq<DashCategory>)
    ensures SumValues(PerCategory(init + [last], categories)) ==
      SumValues(PerCategory(init, categories)) + (if last.categoryId != 0 then Occurrences(categories, last.categoryId) else 0)
  {
    var all := init + [last];
    assert all[..|all| - 1] == init;
    if categories != [] {
      PerCategoryTail(all, categories);
      PerCategoryTail(init, categories);
      SumValuesSnoc(init, last, categories[1..]);
    }
  }

  /** With distinct category ids, the per-category counts add up to at
   *  most the number of articles (articles without a category, or with
   *  an unknown one, are counted nowhere). */
  lemma {:induction false} PerCategoryBounded(articles: seq<DashArticle>, categories: seq<DashCategory>)
    requires DistinctIds(categories)
    ensures SumValues(PerCategory(articles, categories)) <= |articles|
    decreases |articles|
  {
    if articles == [] {
      NoArticlesSumZero(categories);
    } else {
      var init := articles[..|articles| - 1];
      var last := articles[|articles| - 1];
      assert articles == init + [last];
      PerCategoryBounded(init, categories);
      SumValuesSnoc(init, last, categories);
      DistinctOccursOnce(categories, last.categoryId);
    }
  }

  /** The first ten of the articles, in the order given (the page sorts
   *  them newest first), as 'Created' activity entries. */
  function RecentActivity(newestFirst: seq<DashArticle>): (r: seq<Activity>)
    ensures |r| == if |newestFirst| < RECENT_LIMIT then |newestFirst| else RECENT_LIMIT
    ensures forall k :: 0 <= k < |r| ==> r[k].action == "Created" && r[k].kind == "article"
    ensures forall k :: 0 <= k < |r| ==>
      r[k].id == newestFirst[k].id && r[k].title == newestFirst[k].title && r[k].date == newestFirst[k].createDateTime
  {
    var n := if |newestFirst| < RECENT_LIMIT then |newestFirst| else RECENT_LIMIT;
    seq(n, k requires 0 <= k < n =>
      Activity(newestFirst[k].id, newestFirst[k].title, "Created", newestFirst[k].createDateTime, "article"))
  }

  /** An activity entry carries the id, title and creation date of `a`. */
  predicate Shows(entry: Activity, a: DashArticle)
  {
    entry.id == a.id && entry.title == a.title && entry.date == a.createDateTime
  }

  /** Sorting the dashboard's own articles newest first, the activity
   *  list shows min(10, n) of those articles. */
  lemma RecentActivityFromArticles(articles: seq<DashArticle>, newestFirst: seq<DashArticle>)
    requires multiset(newestFirst) == multiset(articles)
    ensures |RecentActivity(newestFirst)| == if |articles| < RECENT_LIMIT then |articles| else RECENT_LIMIT
    ensures forall k :: 0 <= k < |RecentActivity(newestFirst)| ==>
      exists a :: a in articles && Shows(RecentActivity(newestFirst)[k], a)
  {
    assert |newestFirst| == |multiset(newestFirst)| == |multiset(articles)| == |articles|;
    forall k | 0 <= k < |RecentActivity(newestFirst)|
      ensures exists a :: a in articles && Shows(RecentActivity(newestFirst)[k], a)
    {
      assert newestFirst[k] in multiset(newestFirst);
      assert newestFirst[k] in articles;
    }
  }

  /** The statistics `calculateStats` sets. */
  function StatsOf(articles: seq<DashArticle>, categories: seq<DashCategory>, newestFirst: seq<DashArticle>): Stats
  {
    Stats(|articles|, CountStatus(articles, "PUBLISHED"), CountStatus(articles, "COMING_SOON"),
          CountStatus(articles, "UNDER_REVIEW"), CountStatus(articles, "RE_WRITE"), |categories|,
          PerCategory(articles, categories), RecentActivity(newestFirst))
  }

  /** `calculateStats`: the per-category counts are gathered in a map by a
   *  loop over the articles, then read out by a loop over the categories.
   *  `newestFirst` is the articles ordered by creation date. */
  method CalculateStats(articles: seq<DashArticle>, categories: seq<DashCategory>, newestFirst: seq<DashArticle>)
    returns (stats: Stats)
    requires multiset(newestFirst) == multiset(articles)
    ensures stats == StatsOf(articles, categories, newestFirst)
  {
    var categoryCount: map<int, nat> := map[];
    var i := 0;
    while i < |articles|
      invariant 0 <= i <= |articles|
      invariant forall c :: c in categoryCount <==> c != 0 && CountInCategory(articles[..i], c) > 0
      invariant forall c :: c in categoryCount ==> categoryCount[c] == CountInCategory(articles[..i], c)
    {
      var a := articles[i];
      assert articles[..i + 1][..i] == articles[..i];
      assert articles[..i + 1][i] == a;
      if a.categoryId != 0 {
        if a.categoryId in categoryCount {
          categoryCount := categoryCount[a.categoryId := categoryCount[a.categoryId] + 1];
        } else {
          categoryCount := categoryCount[a.categoryId := 1];
        }
      }
      i := i + 1;
    }
    assert articles[..|articles|] == articles;
    var perCategory: seq<CategoryEntry> := [];
    var j := 0;
    while j < |categories|
      invariant 0 <= j <= |categories|
      invariant perCategory == PerCategory(articles, categories)[..j]
    {
      var c := categories[j];
      var value := if c.id in categoryCount then categoryCount[c.id] else 0;
      assert value == CountInCategory(articles, c.id) by {
        if c.id == 0 {
          CountInCategoryZero(articles);
        }
      }
      perCategory := perCategory + [CategoryEntry(c.title, value)];
      j := j + 1;
    }
    stats := Stats(|articles|, CountStatus(articles, "PUBLISHED"), CountStatus(articles, "COMING_SOON"),
                   CountStatus(articles, "UNDER_REVIEW"), CountStatus(articles, "RE_WRITE"), |categories|,
                   perCategory, RecentActivity(newestFirst));
  }

  lemma {:induction false} CountInCategoryZero(articles: seq<DashArticle>)
    ensures CountInCategory(articles, 0) == 0
    decreases |articles|
  {
    if articles != [] {
      CountInCategoryZero(articles[..|articles| - 1]);
    }
  }

  /** `articles.filter(article => article.id !== id)`. */
  function WithoutArticle(articles: seq<DashArticle>, id: int): (r: seq<DashArticle>)
    ensures forall a :: a in r <==> a in articles && a.id != id
    ensures |r| <= |articles|
  {
    if articles == [] then []
    else (if articles[0].id == id then [] else [articles[0]]) + WithoutArticle(articles[1..], id)
  }

  function Min(a: int, b: int): int { if a <= b then a else b }

  /** The table rows on `page`: `slice(page * rows, page * rows + rows)`. */
  function PageSlice<T>(items: seq<T>, page: nat, rowsPerPage: nat): (r: seq<T>)
    ensures |r| <= rowsPerPage
    ensures page * rowsPerPage >= |items| ==> r == []
    ensures page * rowsPerPage < |items| ==> |r| == Min(rowsPerPage, |items| - page * rowsPerPage)
    ensures forall k :: 0 <= k < |r| ==> page * rowsPerPage + k < |items| && r[k] == items[page * rowsPerPage + k]
  {
    var from := page * rowsPerPage;
    if from >= |items| then []
    else
      var to := if from + rowsPerPage <= |items| then from + rowsPerPage else |items|;
      items[from..to]
  }

  class DashboardState {
    var articles: seq<DashArticle>
    var categories: seq<DashCategory>
    var stats: Stats
    var selectedArticleId: Option<int>
    var error: string
    var page: nat
    var rowsPerPage: nat

    constructor (fetched: seq<DashArticle>, cats: seq<DashCategory>, newestFirst: seq<DashArticle>)
      requires multiset(newestFirst) == multiset(fetched)
      ensures articles == fetched && categories == cats && stats == StatsOf(fetched, cats, newestFirst)
      ensures selectedArticleId == None && error == "" && page == 0 && rowsPerPage == 5
    {
      articles := fetched;
      categories := cats;
      stats := StatsOf(fetched, cats, newestFirst);
      selectedArticleId := None;
      error := "";
      page := 0;
      rowsPerPage := 5;
    }

    /** `handleOpenActionMenu` and `handleCloseActionMenu`: the menu
     *  remembers which article it was opened on. */
    method HandleOpenActionMenu(articleId: int)
      modifies this`selectedArticleId
      ensures selectedArticleId == Some(articleId)
    {
      selectedArticleId := Some(articleId);
    }

    method HandleCloseActionMenu()
      modifies this`selectedArticleId
      ensures selectedArticleId == None
    {
      selectedArticleId := None;
    }

    /** `handleDeleteArticle` once the user has answered the prompt: a
     *  successful delete removes the selected article (with no article
     *  selected, the filter on `null` keeps every one) and recomputes the
     *  statistics from what remains; the action menu closes either way.
     *  `newestFirst` is the remaining articles ordered by creation date. */
    method HandleDeleteArticle(confirmed: bool, deleted: Result<()>, newestFirst: seq<DashArticle>)
      requires multiset(newestFirst) ==
        multiset(if selectedArticleId.Some? then WithoutArticle(articles, selectedArticleId.value) else articles)
      modifies this
      ensures confirmed && deleted.Ok? ==>
        articles == (if old(selectedArticleId).Some? then WithoutArticle(old(articles), old(selectedArticleId).value)
                     else old(articles))
        && stats == StatsOf(articles, categories, newestFirst) && error == old(error)
      ensures confirmed && deleted.Err? ==>
        articles == old(articles) && stats == old(stats) && error == "Failed to delete article. Please try again."
      ensures !confirmed ==> articles == old(articles) && stats == old(stats) && error == old(error)
      ensures selectedArticleId == None
      ensures categories == old(categories) && page == old(page) && rowsPerPage == old(rowsPerPage)
    {
      if confirmed {
        if deleted.Ok? {
          var remaining := if selectedArticleId.Some? then WithoutArticle(articles, selectedArticleId.value) else articles;
          articles := remaining;
          stats := CalculateStats(remaining, categories, newestFirst);
        } else {
          error := "Failed to delete article. Please try again.";
        }
      }
      HandleCloseActionMenu();
    }

    method HandleChangePage(newPage: nat)
      modifies this`page
      ensures page == newPage
    {
      page := newPage;
    }

    method HandleChangeRowsPerPage(rows: nat)
      modifies this`rowsPerPage, this`page
      ensures rowsPerPage == rows && page == 0
    {
      rowsPerPage := rows;
      page := 0;
    }
  }
}
