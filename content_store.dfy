/**
 * The content tables as the services see them: articles, categories and
 * comments, each a repository of rows (`Article.java`, `Category.java`
 * and the comment entity), joined by foreign keys. `Linked` is the
 * database's referential integrity: every article names an existing
 * category and every comment an existing article. The two cascades of the
 * entity mappings (`Category.java:22`, `Article.java:36`) are the
 * functions `ArticlesOutside` and `CommentsOutside`.
 */
module ContentStore {
  import opened Common
  import opened ContentRepository

  /** An article row: the columns the services read and write. */
  datatype ArticleRecord = ArticleRecord(title: string, content: string, imagePath: Option<string>,
                                         status: string, categoryId: int)

  datatype CategoryRecord = CategoryRecord(title: string)

  /** A comment row; the text can be null after an update. */
  datatype CommentRecord = CommentRecord(text: Option<string>, articleId: int)

  type ArticleRow = Row<ArticleRecord>
  type CategoryRow = Row<CategoryRecord>
  type CommentRow = Row<CommentRecord>

  /** Every article's category and every comment's article exists. */
  predicate Linked(articles: seq<ArticleRow>, categories: seq<CategoryRow>, comments: seq<CommentRow>)
  {
    (forall a :: a in articles ==> a.value.categoryId in Ids(categories))
    && (forall c :: c in comments ==> c.value.articleId in Ids(articles))
  }

  /** Primary keys and foreign keys both hold. */
  predicate Consistent(articles: seq<ArticleRow>, categories: seq<CategoryRow>, comments: seq<CommentRow>)
  {
    DistinctIds(articles) && DistinctIds(categories) && DistinctIds(comments)
    && Linked(articles, categories, comments)
  }

  /** The ids of the articles filed under `categoryId`. */
  function ArticleIdsIn(articles: seq<ArticleRow>, categoryId: int): set<int>
  {
    set a | a in articles && a.value.categoryId == categoryId :: a.id
  }

  /** The test that keeps the articles outside a category. */
  function OutsideCategory(categoryId: int): ArticleRow -> bool
  {
    (a: ArticleRow) => a.value.categoryId != categoryId
  }

  /** The test that keeps the comments on none of the given articles. */
  function OnNoneOf(articleIds: set<int>): CommentRow -> bool
  {
    (c: CommentRow) => c.value.articleId !in articleIds
  }

  /** Removing a category removes its articles (cascade from the
   *  category's article list). */
  function ArticlesOutside(articles: seq<ArticleRow>, categoryId: int): seq<ArticleRow>
  {
    Filter(articles, OutsideCategory(categoryId))
  }

  /** Removing articles removes their comments (cascade from the article's
   *  comment list). */
  function CommentsOutside(comments: seq<CommentRow>, articleIds: set<int>): seq<CommentRow>
  {
    Filter(comments, OnNoneOf(articleIds))
  }

  /** The store the services share. */
  class Database {
    var articles: seq<ArticleRow>
    var categories: seq<CategoryRow>
    var comments: seq<CommentRow>

    predicate Valid()
      reads this
    {
      Consistent(articles, categories, comments)
    }

    constructor ()
      ensures Valid() && articles == [] && categories == [] && comments == []
    {
      articles, categories, comments := [], [], [];
    }
  }

  /** Saving a new article under an existing category keeps the store
   *  consistent. */
  lemma AddArticleConsistent(articles: seq<ArticleRow>, categories: seq<CategoryRow>, comments: seq<CommentRow>,
                             value: ArticleRecord)
    requires Consistent(articles, categories, comments) && value.categoryId in Ids(categories)
    ensures Consistent(Appended(articles, value), categories, comments)
  {
    AppendFound(articles, value, 0);
    forall a | a in Appended(articles, value) ensures a.value.categoryId in Ids(categories) {
      if a !in articles {
        assert a == Row(NextId(articles), value);
      }
    }
  }

  /** Saving a new category keeps the store consistent. */
  lemma AddCategoryConsistent(articles: seq<ArticleRow>, categories: seq<CategoryRow>, comments: seq<CommentRow>,
                              value: CategoryRecord)
    requires Consistent(articles, categories, comments)
    ensures Consistent(articles, Appended(categories, value), comments)
  {
    AppendFound(categories, value, 0);
  }

  /** Saving a new comment on an existing article keeps the store
   *  consistent. */
  lemma AddCommentConsistent(articles: seq<ArticleRow>, categories: seq<CategoryRow>, comments: seq<CommentRow>,
                             value: CommentRecord)
    requires Consistent(articles, categories, comments) && value.articleId in Ids(articles)
    ensures Consistent(articles, categories, Appended(comments, value))
  {
    AppendFound(comments, value, 0);
    forall c | c in Appended(comments, value) ensures c.value.articleId in Ids(articles) {
      if c !in comments {
        assert c == Row(NextId(comments), value);
      }
    }
  }

  /** Saving an article under an existing category keeps the store
   *  consistent. */
  lemma ReplaceArticleConsistent(articles: seq<ArticleRow>, categories: seq<CategoryRow>, comments: seq<CommentRow>,
                                 id: int, value: ArticleRecord)
    requires Consistent(articles, categories, comments)
    requires id in Ids(articles) && value.categoryId in Ids(categories)
    ensures Consistent(Replace(articles, id, value), categories, comments)
  {
    ReplaceFound(articles, id, value, id);
    forall a | a in Replace(articles, id, value) ensures a.value.categoryId in Ids(categories) {
      ReplaceMembers(articles, id, value, a);
    }
  }

  /** Merging a new article with an empty comment list onto a stored one
   *  (the list is `orphanRemoval`) keeps the store consistent, and no
   *  comment is left on that article. */
  lemma OverwriteArticleConsistent(articles: seq<ArticleRow>, categories: seq<CategoryRow>, comments: seq<CommentRow>,
                                   id: int, value: ArticleRecord)
    requires Consistent(articles, categories, comments)
    requires id in Ids(articles) && value.categoryId in Ids(categories)
    ensures var comments' := CommentsOutside(comments, {id});
      && Consistent(Replace(articles, id, value), categories, comments')
      && forall c :: c in comments' ==> c.value.articleId != id
  {
    var comments' := CommentsOutside(comments, {id});
    ReplaceArticleConsistent(articles, categories, comments, id, value);
    FilterKeepsDistinct(comments, OnNoneOf({id}));
    forall c | c in comments' ensures c.value.articleId in Ids(Replace(articles, id, value)) && c.value.articleId != id {
      assert c in comments && OnNoneOf({id})(c);
    }
  }

  /** Saving a category under its id keeps the store consistent. */
  lemma ReplaceCategoryConsistent(articles: seq<ArticleRow>, categories: seq<CategoryRow>, comments: seq<CommentRow>,
                                  id: int, value: CategoryRecord)
    requires Consistent(articles, categories, comments) && id in Ids(categories)
    ensures Consistent(articles, Replace(categories, id, value), comments)
  {
    ReplaceFound(categories, id, value, id);
  }

  /** Saving a comment on an existing article keeps the store consistent. */
  lemma ReplaceCommentConsistent(articles: seq<ArticleRow>, categories: seq<CategoryRow>, comments: seq<CommentRow>,
                                 id: int, value: CommentRecord)
    requires Consistent(articles, categories, comments)
    requires id in Ids(comments) && value.articleId in Ids(articles)
    ensures Consistent(articles, categories, Replace(comments, id, value))
  {
    ReplaceFound(comments, id, value, id);
    forall c | c in Replace(comments, id, value) ensures c.value.articleId in Ids(articles) {
      ReplaceMembers(comments, id, value, c);
    }
  }

  /** Deleting an article together with its comments keeps the store
   *  consistent, and no comment is left on the deleted article. */
  lemma DeleteArticleConsistent(articles: seq<ArticleRow>, categories: seq<CategoryRow>, comments: seq<CommentRow>,
                                id: int)
    requires Consistent(articles, categories, comments)
    ensures var comments' := CommentsOutside(comments, {id});
      && Consistent(Remove(articles, id), categories, comments')
      && forall c :: c in comments' ==> c.value.articleId != id
  {
    var articles' := Remove(articles, id);
    var comments' := CommentsOutside(comments, {id});
    RemoveFound(articles, id, id);
    FilterKeepsDistinct(comments, OnNoneOf({id}));
    forall c | c in comments' ensures c.value.articleId in Ids(articles') {
      assert c in comments && OnNoneOf({id})(c);
    }
  }

  /** Deleting a category together with its articles and their comments
   *  keeps the store consistent, and nothing is left filed under it. */
  lemma DeleteCategoryConsistent(articles: seq<ArticleRow>, categories: seq<CategoryRow>, comments: seq<CommentRow>,
                                 id: int)
    requires Consistent(articles, categories, comments)
    ensures var articles' := ArticlesOutside(articles, id);
      && Consistent(articles', Remove(categories, id), CommentsOutside(comments, ArticleIdsIn(articles, id)))
      && forall a :: a in articles' ==> a.value.categoryId != id
  {
    var removed := ArticleIdsIn(articles, id);
    var articles' := ArticlesOutside(articles, id);
    var categories' := Remove(categories, id);
    var comments' := CommentsOutside(comments, removed);
    RemoveFound(categories, id, id);
    FilterKeepsDistinct(articles, OutsideCategory(id));
    FilterKeepsDistinct(comments, OnNoneOf(removed));
    forall a | a in articles' ensures a.value.categoryId in Ids(categories') && a.value.categoryId != id {
      assert a in articles && OutsideCategory(id)(a);
    }
    forall c | c in comments' ensures c.value.articleId in Ids(articles') {
      assert c in comments && OnNoneOf(removed)(c);
      var a := IdsOwner(articles, c.value.articleId);
      assert a.value.categoryId != id;
      assert a in articles';
    }
  }
}
