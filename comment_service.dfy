/**
 * The comment service (`CommentServiceImpl.java`): creation with its three
 * checks, lookup, and the update that overwrites the text and moves the
 * comment only to an article that exists.
 */
module CommentService {
  import opened Common
  import opened ContentRepository
  import opened ContentStore

  const TEXT_EMPTY := "Comment text cannot be empty"
  const ARTICLE_ID_REQUIRED := "Article ID is required"
  const ARTICLE_NOT_FOUND := "Article not found with ID: "

  /** The request body: the id the client sent, the comment text and the
   *  article it belongs to. */
  datatype CommentDto = CommentDto(id: Option<int>, text: Option<string>, articleId: Option<int>)

  /** The blank test of the text check. */
  predicate BlankText(text: Option<string>)
  {
    text.None? || JavaTrim(text.value) == ""
  }

  /** The comment `createComment` would save, or the first failed check. */
  function NewComment(dto: CommentDto, articles: seq<ArticleRow>): (r: Result<CommentRecord>)
    ensures r.Ok? <==> !BlankText(dto.text) && dto.articleId.Some? && dto.articleId.value in Ids(articles)
    ensures BlankText(dto.text) ==> r == Err(TEXT_EMPTY)
    ensures !BlankText(dto.text) && dto.articleId.None? ==> r == Err(ARTICLE_ID_REQUIRED)
    ensures !BlankText(dto.text) && dto.articleId.Some? && dto.articleId.value !in Ids(articles) ==>
      r == Err(ARTICLE_NOT_FOUND + IntToString(dto.articleId.value))
    ensures r.Ok? ==> r.value.text == dto.text && r.value.articleId == dto.articleId.value
  {
    if BlankText(dto.text) then Err(TEXT_EMPTY)
    else if dto.articleId.None? then Err(ARTICLE_ID_REQUIRED)
    else if Find(articles, dto.articleId.value).None? then Err(ARTICLE_NOT_FOUND + IntToString(dto.articleId.value))
    else Ok(CommentRecord(dto.text, dto.articleId.value))
  }

  /** `createComment(dto)`: nothing is saved unless every check passes;
   *  the saved comment belongs to the article it names. The mapped entity
   *  keeps the request's id: one naming a stored comment is merged onto
   *  it, any other is appended under a fresh id. */
  method CreateComment(db: Database, dto: CommentDto) returns (r: Result<CommentRow>)
    requires db.Valid()
    modifies db
    ensures db.Valid()
    ensures db.articles == old(db.articles) && db.categories == old(db.categories)
    ensures r.Err? ==> NewComment(dto, old(db.articles)) == Err(r.error) && db.comments == old(db.comments)
    ensures r.Ok? && !NamesStoredRow(dto.id, old(db.comments)) ==>
      NewComment(dto, old(db.articles)) == Ok(r.value.value)
      && r.value.id == NextId(old(db.comments))
      && db.comments == Appended(old(db.comments), r.value.value)
    ensures r.Ok? && NamesStoredRow(dto.id, old(db.comments)) ==>
      NewComment(dto, old(db.articles)) == Ok(r.value.value)
      && r.value.id == dto.id.value
      && db.comments == Replace(old(db.comments), dto.id.value, r.value.value)
    ensures r.Ok? ==> Find(db.articles, r.value.value.articleId).Some?
    ensures r.Ok? ==> Find(db.comments, r.value.id) == Some(r.value.value)
  {
    var comment := NewComment(dto, db.articles);
    if comment.Err? {
      return Err(comment.error);
    }
    if dto.id.Some? && dto.id.value in Ids(db.comments) {
      var id := dto.id.value;
      ReplaceCommentConsistent(db.articles, db.categories, db.comments, id, comment.value);
      ReplaceFound(db.comments, id, comment.value, id);
      db.comments := Replace(db.comments, id, comment.value);
      return Ok(Row(id, comment.value));
    }
    AddCommentConsistent(db.articles, db.categories, db.comments, comment.value);
    AppendFound(db.comments, comment.value, 0);
    var id := NextId(db.comments);
    db.comments := Appended(db.comments, comment.value);
    r := Ok(Row(id, comment.value));
  }

  /** `getCommentById(id)`: null for a missing id, otherwise the stored
   *  comment, which belongs to an existing article. */
  function GetCommentById(db: Database, id: int): (r: Option<CommentRow>)
    requires db.Valid()
    reads db
    ensures r.Some? <==> id in Ids(db.comments)
    ensures r.Some? ==> r.value in db.comments && r.value.id == id && r.value.value.articleId in Ids(db.articles)
  {
    var found := Find(db.comments, id);
    if found.None? then None else Some(Row(id, found.value))
  }

  /** The comment after `updateComment`: the text is overwritten, even
   *  with null, and the article changes only when the request names a
   *  different article that exists. */
  function Updated(existing: CommentRecord, dto: CommentDto, articles: seq<ArticleRow>): (c: CommentRecord)
    ensures c.text == dto.text
    ensures c.articleId ==
      if dto.articleId.Some? && dto.articleId.value in Ids(articles) then dto.articleId.value else existing.articleId
  {
    var moved := dto.articleId.Some? && dto.articleId.value != existing.articleId
                 && Find(articles, dto.articleId.value).Some?;
    CommentRecord(dto.text, if moved then dto.articleId.value else existing.articleId)
  }

  /** Updating twice with the same request is updating once. */
  lemma UpdateIdempotent(existing: CommentRecord, dto: CommentDto, articles: seq<ArticleRow>)
    ensures Updated(Updated(existing, dto, articles), dto, articles) == Updated(existing, dto, articles)
  {
  }

  /** `updateComment(id, dto)`: a missing id gives null and writes nothing;
   *  otherwise the comment is saved as `Updated` says. */
  method UpdateComment(db: Database, id: int, dto: CommentDto) returns (r: Option<CommentRow>)
    requires db.Valid()
    modifies db
    ensures db.Valid()
    ensures db.articles == old(db.articles) && db.categories == old(db.categories)
    ensures r.None? <==> id !in Ids(old(db.comments))
    ensures r.None? ==> db.comments == old(db.comments)
    ensures r.Some? ==>
      var c := Updated(Find(old(db.comments), id).value, dto, db.articles);
      r.value == Row(id, c)
      && db.comments == Replace(old(db.comments), id, c)
      && Find(db.comments, id) == Some(c)
  {
    var found := Find(db.comments, id);
    if found.None? {
      return None;
    }
    var c := Updated(found.value, dto, db.articles);
    assert c.articleId in Ids(db.articles) by {
      assert Row(id, found.value) in db.comments;
    }
    ReplaceCommentConsistent(db.articles, db.categories, db.comments, id, c);
    ReplaceFound(db.comments, id, c, id);
    db.comments := Replace(db.comments, id, c);
    r := Some(Row(id, c));
  }
}
