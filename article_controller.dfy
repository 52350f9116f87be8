/**
 * The article REST controller (`ArticleManagementController.java`): its
 * own checks before creating, the status codes it answers with, the
 * preservation of the stored image path on update, the parsing of the
 * `sort` parameter of the paged listings, and the image-only update.
 */
module ArticleController {
  import opened Common
  import opened ContentRepository
  import opened ContentStore
  import opened ArticleService
  import ApiClient

  /** The body of a reply: `{"error": ...}`, the validation handler's
   *  field-to-message map, an article, the three fields of the image
   *  update, plain text, or nothing. */
  datatype Body =
    | ErrorBody(error: string)
    | ValidationBody(errors: map<string, string>)
    | ArticleBody(article: ArticleRow)
    | ImageBody(id: int, title: string, imagePath: Option<string>)
    | TextBody(text: string)
    | NoBody

  datatype Response = Response(status: int, body: Body)

  const TITLE_REQUIRED := "Title cannot be empty"
  const CONTENT_REQUIRED := "Content cannot be empty"
  const CATEGORY_ID_REQUIRED := "Category ID is required"
  const NOT_FOUND_WITH_ID := "Article not found with id: "
  const NOT_FOUND := "Article not found"
  /** What `sortParams[0]` throws when the split leaves no piece. */
  const NO_SORT_FIELD := "Index 0 out of bounds for length 0"

  // ---------------------------------------------------------------------
  // Bean Validation of the request body (`@Valid ArticleDTO`)

  const TITLE_MAX := 255
  const CONTENT_MAX := 4000
  const CATEGORY_ID_NULL_MESSAGE := "Category ID cannot be null"
  const TITLE_EMPTY_MESSAGE := "Title cannot be empty"
  const TITLE_SIZE_MESSAGE := "Title cannot exceed 255 characters"
  const CONTENT_EMPTY_MESSAGE := "Content cannot be empty"
  const CONTENT_SIZE_MESSAGE := "Content cannot exceed 4000 characters"

  /** The message of a `@NotEmpty @Size(max)` field that fails, if any. */
  function TextViolation(s: Option<string>, max: nat, emptyMessage: string, sizeMessage: string): (v: Option<string>)
    ensures v.None? <==> s.Some? && 0 < |s.value| <= max
    ensures v.Some? ==> v.value == (if s.None? || s.value == "" then emptyMessage else sizeMessage)
  {
    if s.None? || s.value == "" then Some(emptyMessage)
    else if |s.value| > max then Some(sizeMessage)
    else None
  }

  /** The field errors the validation handler puts in its `errors` map:
   *  `@NotNull categoryId`, `@NotEmpty @Size(max = 255) title` and
   *  `@NotEmpty @Size(max = 4000) content`; the other fields carry no
   *  constraint. */
  function Violations(dto: ArticleDto): (errors: map<string, string>)
    ensures ("categoryId" in errors <==> dto.categoryId.None?)
      && ("categoryId" in errors ==> errors["categoryId"] == CATEGORY_ID_NULL_MESSAGE)
    ensures ("title" in errors <==> dto.title.None? || dto.title.value == "" || |dto.title.value| > TITLE_MAX)
      && ("title" in errors ==>
            errors["title"] == if dto.title.None? || dto.title.value == "" then TITLE_EMPTY_MESSAGE else TITLE_SIZE_MESSAGE)
    ensures ("content" in errors <==> dto.content.None? || dto.content.value == "" || |dto.content.value| > CONTENT_MAX)
      && ("content" in errors ==>
            errors["content"] == if dto.content.None? || dto.content.value == "" then CONTENT_EMPTY_MESSAGE else CONTENT_SIZE_MESSAGE)
    ensures errors.Keys <= {"categoryId", "title", "content"}
  {
    var c := if dto.categoryId.None? then map["categoryId" := CATEGORY_ID_NULL_MESSAGE] else map[];
    var t := TextViolation(dto.title, TITLE_MAX, TITLE_EMPTY_MESSAGE, TITLE_SIZE_MESSAGE);
    var n := TextViolation(dto.content, CONTENT_MAX, CONTENT_EMPTY_MESSAGE, CONTENT_SIZE_MESSAGE);
    var ct := if t.Some? then c["title" := t.value] else c;
    if n.Some? then ct["content" := n.value] else ct
  }

  /** A body that passes validation has a category id, a title and a
   *  content, none empty, within their sizes. */
  lemma ValidBodyComplete(dto: ArticleDto)
    requires Violations(dto) == map[]
    ensures dto.categoryId.Some? && dto.title.Some? && dto.content.Some?
    ensures 0 < |dto.title.value| <= TITLE_MAX && 0 < |dto.content.value| <= CONTENT_MAX
  {
  }

  /** Behind validation, the controller's own checks can only refuse a
   *  title or content made of whitespace: the category-id check never
   *  fires. */
  lemma GateAfterValidation(dto: ArticleDto)
    requires Violations(dto) == map[]
    ensures CreateGate(dto).Some? <==> Blank(dto.title) || Blank(dto.content)
    ensures CreateGate(dto) != Some(CATEGORY_ID_REQUIRED)
  {
    ValidBodyComplete(dto);
  }

  // ---------------------------------------------------------------------
  // POST /api/articles

  /** The controller's own checks, in order, before the service is called. */
  function CreateGate(dto: ArticleDto): (e: Option<string>)
    ensures e.None? <==> !Blank(dto.title) && !Blank(dto.content) && dto.categoryId.Some?
  {
    if Blank(dto.title) then Some(TITLE_REQUIRED)
    else if Blank(dto.content) then Some(CONTENT_REQUIRED)
    else if dto.categoryId.None? then Some(CATEGORY_ID_REQUIRED)
    else None
  }

  /** The controller repeats the service's first three checks, so the only
   *  service failure a client can get through it is the unknown category. */
  lemma GateLeavesOnlyUnknownCategory(dto: ArticleDto, categories: seq<CategoryRow>)
    requires CreateGate(dto).None?
    ensures NewArticle(dto, categories).Err? <==> dto.categoryId.value !in Ids(categories)
    ensures NewArticle(dto, categories).Err? ==>
      NewArticle(dto, categories).error == CATEGORY_NOT_FOUND + IntToString(dto.categoryId.value)
  {
  }

  /** `createArticle`: 400 with the field errors when validation fails,
   *  then 400 with the first failed check of its own, 500 with the
   *  service's message, or 201 with the saved article: appended under a
   *  fresh id, or merged onto the stored article the request's id names. */
  method CreateArticle(db: Database, dto: ArticleDto) returns (resp: Response)
    requires db.Valid()
    modifies db
    ensures db.Valid()
    ensures db.categories == old(db.categories)
    ensures resp.status != 201 ==> db.articles == old(db.articles) && db.comments == old(db.comments)
    ensures Violations(dto) != map[] ==> resp == Response(400, ValidationBody(Violations(dto)))
    ensures Violations(dto) == map[] && CreateGate(dto).Some? ==>
      resp == Response(400, ErrorBody(CreateGate(dto).value))
    ensures Violations(dto) == map[] && CreateGate(dto).None? && NewArticle(dto, old(db.categories)).Err? ==>
      resp == Response(500, ErrorBody(NewArticle(dto, old(db.categories)).error))
    ensures (Violations(dto) == map[] && CreateGate(dto).None? && NewArticle(dto, old(db.categories)).Ok?
             && !NamesStoredRow(dto.id, old(db.articles))) ==>
      var saved := Row(NextId(old(db.articles)), NewArticle(dto, old(db.categories)).value);
      resp == Response(201, ArticleBody(saved)) && db.articles == old(db.articles) + [saved]
      && db.comments == old(db.comments)
    ensures (Violations(dto) == map[] && CreateGate(dto).None? && NewArticle(dto, old(db.categories)).Ok?
             && NamesStoredRow(dto.id, old(db.articles))) ==>
      var saved := Row(dto.id.value, NewArticle(dto, old(db.categories)).value);
      resp == Response(201, ArticleBody(saved))
      && db.articles == Replace(old(db.articles), dto.id.value, saved.value)
      && db.comments == CommentsOutside(old(db.comments), {dto.id.value})
  {
    var errors := Violations(dto);
    if errors != map[] {
      return Response(400, ValidationBody(errors));
    }
    var gate := CreateGate(dto);
    if gate.Some? {
      return Response(400, ErrorBody(gate.value));
    }
    var created := ArticleService.CreateArticle(db, dto);
    if created.Err? {
      resp := Response(500, ErrorBody(created.error));
    } else {
      resp := Response(201, ArticleBody(created.value));
    }
  }

  // ---------------------------------------------------------------------
  // GET /api/articles/{id}

  /** `getArticleById`: 404 naming the id unless the article exists (the
   *  existence check and the null check after the lookup answer alike). */
  function GetArticle(db: Database, id: int): (resp: Response)
    reads db
    ensures resp.status == 200 <==> ExistsById(db, Some(id))
    ensures resp.status == 200 ==> resp.body == ArticleBody(Row(id, Find(db.articles, id).value))
    ensures resp.status != 200 ==> resp == Response(404, ErrorBody(NOT_FOUND_WITH_ID + IntToString(id)))
  {
    var found := Find(db.articles, id);
    if !ExistsById(db, Some(id)) || found.None? then Response(404, ErrorBody(NOT_FOUND_WITH_ID + IntToString(id)))
    else Response(200, ArticleBody(Row(id, found.value)))
  }

  // ---------------------------------------------------------------------
  // PUT /api/articles/{id}

  /** The request the controller hands to the service: a null or empty
   *  image path is replaced by the stored article's, when it has one. */
  function WithStoredImage(dto: ArticleDto, existing: Option<ArticleRecord>): ArticleDto
  {
    if (dto.imagePath.None? || dto.imagePath.value == "") && existing.Some? && existing.value.imagePath.Some?
    then dto.(imagePath := existing.value.imagePath)
    else dto
  }

  /** An update cannot clear a stored image: without a path in the request
   *  the stored path is kept. */
  lemma UpdateKeepsStoredImage(existing: ArticleRecord, dto: ArticleDto, categories: seq<CategoryRow>)
    requires existing.imagePath.Some?
    requires dto.imagePath.None? || dto.imagePath.value == ""
    ensures Merged(existing, WithStoredImage(dto, Some(existing)), categories).imagePath == existing.imagePath
  {
  }

  /** A request path that is not empty always wins. */
  lemma UpdateTakesGivenImage(existing: ArticleRecord, dto: ArticleDto, path: string, categories: seq<CategoryRow>)
    requires dto.imagePath == Some(path) && path != ""
    ensures Merged(existing, WithStoredImage(dto, Some(existing)), categories).imagePath == Some(path)
  {
  }

  /** Behind validation an update always overwrites the title and the
   *  content: the merge's keep-the-stored-value branches for them are
   *  unreachable through this endpoint. */
  lemma ValidUpdateOverwritesText(existing: ArticleRecord, dto: ArticleDto, categories: seq<CategoryRow>)
    requires Violations(dto) == map[]
    ensures Merged(existing, dto, categories).title == dto.title.value
    ensures Merged(existing, dto, categories).content == dto.content.value
  {
    ValidBodyComplete(dto);
  }

  /** `updateArticle`: 400 with the field errors when validation fails,
   *  404 "Article not found" for a missing id, otherwise 200 with the
   *  merged article. */
  method UpdateArticle(db: Database, id: int, dto: ArticleDto) returns (resp: Response)
    requires db.Valid()
    modifies db
    ensures db.Valid()
    ensures db.categories == old(db.categories) && db.comments == old(db.comments)
    ensures Violations(dto) != map[] ==>
      resp == Response(400, ValidationBody(Violations(dto))) && db.articles == old(db.articles)
    ensures Violations(dto) == map[] ==> var existing := Find(old(db.articles), id);
      && (existing.None? ==> resp == Response(404, ErrorBody(NOT_FOUND)) && db.articles == old(db.articles))
      && (existing.Some? ==>
            var merged := Merged(existing.value, WithStoredImage(dto, existing), old(db.categories));
            resp == Response(200, ArticleBody(Row(id, merged)))
            && db.articles == Replace(old(db.articles), id, merged))
  {
    var errors := Violations(dto);
    if errors != map[] {
      return Response(400, ValidationBody(errors));
    }
    var request := dto;
    if dto.imagePath.None? || dto.imagePath.value == "" {
      var existing := Find(db.articles, id);
      if existing.Some? && existing.value.imagePath.Some? {
        request := dto.(imagePath := existing.value.imagePath);
      }
    }
    var updated := ArticleService.UpdateArticle(db, id, request);
    if updated.Some? {
      resp := Response(200, ArticleBody(updated.value));
    } else {
      resp := Response(404, ErrorBody(NOT_FOUND));
    }
  }

  // ---------------------------------------------------------------------
  // DELETE /api/articles/{id}

  /** `deleteArticle`: 204 with no body, or 500 with the failure. */
  method DeleteArticle(db: Database, id: int) returns (resp: Response)
    requires db.Valid()
    modifies db
    ensures db.Valid() && !ExistsById(db, Some(id))
    ensures db.categories == old(db.categories)
    ensures resp.status == 204 <==> id in Ids(old(db.articles))
    ensures resp.status == 204 ==>
      resp.body == NoBody && db.articles == Remove(old(db.articles), id)
      && db.comments == CommentsOutside(old(db.comments), {id})
    ensures resp.status != 204 ==>
      resp == Response(500, ErrorBody(NO_SUCH_ARTICLE + IntToString(id)))
      && db.articles == old(db.articles) && db.comments == old(db.comments)
  {
    var r := ArticleService.DeleteArticle(db, id);
    if r.Ok? {
      resp := Response(204, NoBody);
    } else {
      resp := Response(500, ErrorBody(r.error));
    }
  }

  // ---------------------------------------------------------------------
  // The `sort` parameter of the paged listings

  datatype Direction = Asc | Desc

  datatype SortOrder = SortOrder(field: string, direction: Direction)

  /** `sort.split(",")`, the first piece as the field, and ASC exactly when
   *  a second piece equals "asc" ignoring case. A parameter made only of
   *  commas splits into nothing and `sortParams[0]` throws. */
  function ParseSort(sort: string): (r: Result<SortOrder>)
    ensures r.Err? <==> JavaSplit(sort, ',') == []
    ensures r.Ok? ==> r.value.field == JavaSplit(sort, ',')[0]
    ensures r.Ok? ==> (r.value.direction == Asc <==>
      |JavaSplit(sort, ',')| > 1 && EqualsIgnoreCase(JavaSplit(sort, ',')[1], "asc"))
  {
    var parts := JavaSplit(sort, ',');
    if parts == [] then Err(NO_SORT_FIELD)
    else Ok(SortOrder(parts[0], if |parts| > 1 && EqualsIgnoreCase(parts[1], "asc") then Asc else Desc))
  }

  /** The field is the text before the first comma, the whole parameter
   *  when there is none. */
  lemma SortFieldBeforeFirstComma(sort: string)
    requires ParseSort(sort).Ok?
    ensures ParseSort(sort).value.field == sort[..IndexOf(sort, ',')]
  {
    if ',' in sort {
      var parts := Split(sort, ',');
      assert parts[0] == sort[..IndexOf(sort, ',')];
    } else {
      assert sort[..|sort|] == sort;
    }
  }

  /** A parameter without a comma sorts by itself, descending. */
  lemma BareFieldSortsDescending(field: string)
    requires ',' !in field
    ensures ParseSort(field) == Ok(SortOrder(field, Desc))
  {
  }

  /** Two comma-free pieces joined by one comma split back into them. */
  lemma JavaSplitPair(first: string, second: string)
    requires ',' !in first && ',' !in second && second != ""
    ensures JavaSplit(first + "," + second, ',') == [first, second]
  {
    var s := first + "," + second;
    assert s == first + [','] + second;
    SplitFirst(first, ',', second);
    assert IndexOf(second, ',') == |second|;
    assert Split(s, ',') == [first, second];
    assert s[|first|] == ',';
  }

  /** Parsing the `field,direction` string the client sends recovers the
   *  field and the direction, for a field without commas. */
  lemma SortRoundTrip(field: string, direction: string)
    requires ',' !in field
    requires direction == "asc" || direction == "desc"
    ensures ParseSort(ApiClient.SortParam(field, direction))
      == Ok(SortOrder(field, if direction == "asc" then Asc else Desc))
  {
    JavaSplitPair(field, direction);
    if direction == "desc" {
      assert Lower(direction)[0] == 'd' && Lower("asc")[0] == 'a';
    }
  }

  /** The default `id,desc` sorts by id, descending. */
  lemma DefaultSortIsIdDescending()
    ensures ParseSort("id,desc") == Ok(SortOrder("id", Desc))
  {
    var id, desc := "id", "desc";
    assert ',' !in id by { assert id == ['i', 'd']; }
    SortRoundTrip(id, desc);
    assert ApiClient.SortParam(id, desc) == "id,desc";
  }

  // ---------------------------------------------------------------------
  // POST /api/articles/{id}/image

  /** `updateArticleWithImage(id, imagePath)`: the stored article is sent
   *  back through the update with only its image path replaced, so nothing
   *  else changes; unlike the PUT, a missing path clears the image. */
  method UpdateArticleWithImage(db: Database, id: int, imagePath: Option<string>) returns (resp: Response)
    requires db.Valid()
    modifies db
    ensures db.Valid()
    ensures db.categories == old(db.categories) && db.comments == old(db.comments)
    ensures var existing := Find(old(db.articles), id);
      && (existing.None? ==> resp == Response(404, TextBody(NOT_FOUND)) && db.articles == old(db.articles))
      && (existing.Some? ==>
            var updated := existing.value.(imagePath := imagePath);
            resp == Response(200, ImageBody(id, updated.title, imagePath))
            && db.articles == Replace(old(db.articles), id, updated))
  {
    var existing := Find(db.articles, id);
    if existing.None? {
      return Response(404, TextBody(NOT_FOUND));
    }
    var request := DtoOf(id, existing.value).(imagePath := imagePath);
    assert Row(id, existing.value) in db.articles;
    var updated := ArticleService.UpdateArticle(db, id, request);
    resp := Response(200, ImageBody(id, updated.value.value.title, updated.value.value.imagePath));
  }
}
