/**
 * The article service (`ArticleServiceImpl.java`): listing with an
 * optional case-insensitive title search, creation with its ordered
 * checks, the field-wise merge of an update, existence and deletion.
 */
module ArticleService {
  import opened Common
  import opened ContentRepository
  import opened ContentStore

  const PUBLISHED := "PUBLISHED"

  const TITLE_EMPTY := "Article title cannot be empty"
  const CONTENT_EMPTY := "Article content cannot be empty"
  const CATEGORY_REQUIRED := "Category ID is required"
  const CATEGORY_NOT_FOUND := "Category not found with ID: "
  /** The repository's delete of a missing id fails. */
  const NO_SUCH_ARTICLE := "No article entity with id "

  /** The request body; `None` is a JSON null or an absent key. */
  datatype ArticleDto = ArticleDto(id: Option<int>, title: Option<string>, content: Option<string>, imagePath: Option<string>,
                                   status: Option<string>, categoryId: Option<int>)

  /** `s == null || s.trim().isEmpty()`. */
  predicate Blank(s: Option<string>)
  {
    s.None? || JavaTrim(s.value) == ""
  }

  /** What `entityToDTO` reads off the stored article with `id`. */
  function DtoOf(id: int, a: ArticleRecord): ArticleDto
  {
    ArticleDto(Some(id), Some(a.title), Some(a.content), a.imagePath, Some(a.status), Some(a.categoryId))
  }

  // ---------------------------------------------------------------------
  // getAllArticles

  /** `findByTitleContainingIgnoreCase(q)` on one row. */
  function TitleMatches(q: string): ArticleRow -> bool
  {
    (a: ArticleRow) => Contains(Upper(a.value.title), Upper(q))
  }

  /** `getAllArticles(title)`: everything for a null title, otherwise the
   *  articles whose title contains it ignoring case, in table order. */
  function ArticlesTitled(articles: seq<ArticleRow>, title: Option<string>): (r: seq<ArticleRow>)
    ensures title.None? ==> r == articles
    ensures forall a :: a in r <==> a in articles && (title.None? || Contains(Upper(a.value.title), Upper(title.value)))
  {
    if title.None? then articles else Filter(articles, TitleMatches(title.value))
  }

  /** The search ignores the case of the query. */
  lemma SearchIgnoresCase(articles: seq<ArticleRow>, q: string)
    ensures ArticlesTitled(articles, Some(Upper(q))) == ArticlesTitled(articles, Some(q))
    ensures ArticlesTitled(articles, Some(Lower(q))) == ArticlesTitled(articles, Some(q))
  {
    UpperForgetsCase(q);
    FilterPointwise(articles, TitleMatches(Upper(q)), TitleMatches(q));
    FilterPointwise(articles, TitleMatches(Lower(q)), TitleMatches(q));
  }

  /** An empty query matches every article. */
  lemma EmptySearchListsAll(articles: seq<ArticleRow>)
    ensures ArticlesTitled(articles, Some("")) == articles
  {
    FilterKeepsAll(articles, TitleMatches(""));
  }

  // ---------------------------------------------------------------------
  // createArticle

  /** The checks of `createArticle`, in order, and the article it saves:
   *  a missing status becomes PUBLISHED. */
  function NewArticle(dto: ArticleDto, categories: seq<CategoryRow>): (r: Result<ArticleRecord>)
    ensures Blank(dto.title) ==> r == Err(TITLE_EMPTY)
    ensures !Blank(dto.title) && Blank(dto.content) ==> r == Err(CONTENT_EMPTY)
    ensures !Blank(dto.title) && !Blank(dto.content) && dto.categoryId.None? ==> r == Err(CATEGORY_REQUIRED)
    ensures r.Ok? <==>
      !Blank(dto.title) && !Blank(dto.content) && dto.categoryId.Some? && dto.categoryId.value in Ids(categories)
    ensures r.Ok? ==>
      r.value.categoryId in Ids(categories)
      && r.value.title == dto.title.value && r.value.content == dto.content.value
      && r.value.imagePath == dto.imagePath
      && r.value.status == (if dto.status.Some? then dto.status.value else PUBLISHED)
  {
    if Blank(dto.title) then Err(TITLE_EMPTY)
    else if Blank(dto.content) then Err(CONTENT_EMPTY)
    else if dto.categoryId.None? then Err(CATEGORY_REQUIRED)
    else if Find(categories, dto.categoryId.value).None? then Err(CATEGORY_NOT_FOUND + IntToString(dto.categoryId.value))
    else Ok(ArticleRecord(dto.title.value, dto.content.value, dto.imagePath,
                          if dto.status.Some? then dto.status.value else PUBLISHED, dto.categoryId.value))
  }

  /** An unknown category is reported with its id. */
  lemma UnknownCategoryNamed(dto: ArticleDto, categories: seq<CategoryRow>)
    requires !Blank(dto.title) && !Blank(dto.content) && dto.categoryId.Some?
    requires dto.categoryId.value !in Ids(categories)
    ensures NewArticle(dto, categories) == Err(CATEGORY_NOT_FOUND + IntToString(dto.categoryId.value))
  {
  }

  /** `createArticle(dto)`: on any failed check nothing is saved.
   *  Otherwise the mapped entity keeps the request's id: one naming a
   *  stored article is merged onto it, with the empty comment list
   *  removing that article's comments; any other is appended under a
   *  fresh id. */
  method CreateArticle(db: Database, dto: ArticleDto) returns (r: Result<ArticleRow>)
    requires db.Valid()
    modifies db
    ensures db.Valid()
    ensures db.categories == old(db.categories)
    ensures var expected := NewArticle(dto, old(db.categories));
      && (expected.Err? ==>
            r == Err(expected.error) && db.articles == old(db.articles) && db.comments == old(db.comments))
      && (expected.Ok? && !NamesStoredRow(dto.id, old(db.articles)) ==>
            r == Ok(Row(NextId(old(db.articles)), expected.value))
            && db.articles == Appended(old(db.articles), expected.value)
            && db.comments == old(db.comments))
      && (expected.Ok? && NamesStoredRow(dto.id, old(db.articles)) ==>
            r == Ok(Row(dto.id.value, expected.value))
            && db.articles == Replace(old(db.articles), dto.id.value, expected.value)
            && db.comments == CommentsOutside(old(db.comments), {dto.id.value}))
    ensures r.Ok? ==> Find(db.articles, r.value.id) == Some(r.value.value)
  {
    if dto.title.None? || JavaTrim(dto.title.value) == "" {
      return Err(TITLE_EMPTY);
    }
    if dto.content.None? || JavaTrim(dto.content.value) == "" {
      return Err(CONTENT_EMPTY);
    }
    if dto.categoryId.None? {
      return Err(CATEGORY_REQUIRED);
    }
    var status := if dto.status.Some? then dto.status.value else PUBLISHED;
    var categoryId := dto.categoryId.value;
    if Find(db.categories, categoryId).None? {
      return Err(CATEGORY_NOT_FOUND + IntToString(categoryId));
    }
    var article := ArticleRecord(dto.title.value, dto.content.value, dto.imagePath, status, categoryId);
    if dto.id.Some? && dto.id.value in Ids(db.articles) {
      var id := dto.id.value;
      OverwriteArticleConsistent(db.articles, db.categories, db.comments, id, article);
      ReplaceFound(db.articles, id, article, id);
      db.articles := Replace(db.articles, id, article);
      db.comments := CommentsOutside(db.comments, {id});
      return Ok(Row(id, article));
    }
    AddArticleConsistent(db.articles, db.categories, db.comments, article);
    AppendFound(db.articles, article, 0);
    var id := NextId(db.articles);
    db.articles := Appended(db.articles, article);
    r := Ok(Row(id, article));
  }

  // ---------------------------------------------------------------------
  // updateArticle

  /** The article `updateArticle` saves over `existing`: a null title,
   *  content or status keeps the stored one, a null or unknown category
   *  keeps the stored one, and the image path is taken from the request as
   *  it is, null included. */
  function Merged(existing: ArticleRecord, dto: ArticleDto, categories: seq<CategoryRow>): ArticleRecord
  {
    ArticleRecord(
      if dto.title.Some? then dto.title.value else existing.title,
      if dto.content.Some? then dto.content.value else existing.content,
      dto.imagePath,
      if dto.status.Some? then dto.status.value else existing.status,
      if dto.categoryId.Some? && Find(categories, dto.categoryId.value).Some? then dto.categoryId.value
      else existing.categoryId)
  }

  /** The merge never points an article at a missing category. */
  lemma MergeKeepsCategoryLink(existing: ArticleRecord, dto: ArticleDto, categories: seq<CategoryRow>)
    requires existing.categoryId in Ids(categories)
    ensures Merged(existing, dto, categories).categoryId in Ids(categories)
    ensures dto.categoryId.Some? && dto.categoryId.value !in Ids(categories) ==>
      Merged(existing, dto, categories).categoryId == existing.categoryId
  {
  }

  /** Sending the same update twice has the effect of sending it once. */
  lemma MergeIdempotent(existing: ArticleRecord, dto: ArticleDto, categories: seq<CategoryRow>)
    ensures Merged(Merged(existing, dto, categories), dto, categories) == Merged(existing, dto, categories)
  {
  }

  /** Updating with the article's own fields changes nothing. */
  lemma MergeOwnFieldsUnchanged(id: int, existing: ArticleRecord, categories: seq<CategoryRow>)
    requires existing.categoryId in Ids(categories)
    ensures Merged(existing, DtoOf(id, existing), categories) == existing
  {
  }

  /** An update that sets nothing keeps every field except the image path,
   *  which it clears. */
  lemma EmptyUpdateClearsImage(existing: ArticleRecord, categories: seq<CategoryRow>)
    ensures Merged(existing, ArticleDto(None, None, None, None, None, None), categories)
      == existing.(imagePath := None)
  {
  }

  /** `updateArticle(id, dto)`: a missing id returns null and writes
   *  nothing; otherwise the merged article replaces the stored one, and
   *  its comments and every other table stay. */
  method UpdateArticle(db: Database, id: int, dto: ArticleDto) returns (r: Option<ArticleRow>)
    requires db.Valid()
    modifies db
    ensures db.Valid()
    ensures db.categories == old(db.categories) && db.comments == old(db.comments)
    ensures var existing := Find(old(db.articles), id);
      && (existing.None? ==> r.None? && db.articles == old(db.articles))
      && (existing.Some? ==>
            var merged := Merged(existing.value, dto, old(db.categories));
            r == Some(Row(id, merged)) && db.articles == Replace(old(db.articles), id, merged))
    ensures r.Some? ==> Find(db.articles, id) == Some(r.value.value)
  {
    var existing := Find(db.articles, id);
    if existing.None? {
      return None;
    }
    var current := existing.value;
    var title := if dto.title.Some? then dto.title.value else current.title;
    var content := if dto.content.Some? then dto.content.value else current.content;
    var status := if dto.status.Some? then dto.status.value else current.status;
    var categoryId := current.categoryId;
    if dto.categoryId.Some? {
      if Find(db.categories, dto.categoryId.value).Some? {
        categoryId := dto.categoryId.value;
      }
    }
    var updated := ArticleRecord(title, content, dto.imagePath, status, categoryId);
    assert Row(id, current) in db.articles;
    MergeKeepsCategoryLink(current, dto, db.categories);
    ReplaceArticleConsistent(db.articles, db.categories, db.comments, id, updated);
    ReplaceFound(db.articles, id, updated, id);
    db.articles := Replace(db.articles, id, updated);
    r := Some(Row(id, updated));
  }

  // ---------------------------------------------------------------------
  // existsById, deleteArticle

  /** `existsById(id)`: a null id is never present. */
  function ExistsById(db: Database, id: Option<int>): (b: bool)
    reads db
    ensures b ==> id.Some?
    ensures id.Some? ==> (b <==> Find(db.articles, id.value).Some?)
  {
    id.Some? && id.value in Ids(db.articles)
  }

  /** `deleteArticle(id)`: the article goes and its comments go with it;
   *  deleting a missing id fails and changes nothing. */
  method DeleteArticle(db: Database, id: int) returns (r: Result<()>)
    requires db.Valid()
    modifies db
    ensures db.Valid()
    ensures db.categories == old(db.categories)
    ensures id !in Ids(old(db.articles)) ==>
      r == Err(NO_SUCH_ARTICLE + IntToString(id))
      && db.articles == old(db.articles) && db.comments == old(db.comments)
    ensures id in Ids(old(db.articles)) ==>
      r == Ok(()) && db.articles == Remove(old(db.articles), id)
      && db.comments == CommentsOutside(old(db.comments), {id})
    ensures !ExistsById(db, Some(id))
    ensures forall c :: c in db.comments ==> c.value.articleId != id
  {
    if id !in Ids(db.articles) {
      return Err(NO_SUCH_ARTICLE + IntToString(id));
    }
    DeleteArticleConsistent(db.articles, db.categories, db.comments, id);
    RemoveFound(db.articles, id, id);
    db.articles := Remove(db.articles, id);
    db.comments := CommentsOutside(db.comments, {id});
    r := Ok(());
  }
}
