/**
 * The category REST controller (`CategoryManagementController.java`): the
 * status codes it answers with around the category service. Its paged
 * listing parses `sort` exactly as the article controller does
 * (`ArticleController.ParseSort`).
 */
module CategoryController {
  import opened Common
  import opened ContentRepository
  import opened ContentStore
  import opened CategoryService

  /** The body of a reply: `{"error": ...}`, a category, or nothing. */
  datatype Body = ErrorBody(error: string) | CategoryBody(category: CategoryRow) | NoBody

  datatype Response = Response(status: int, body: Body)

  /** `createCategory`: 201 with the saved category, or 500 with the
   *  service's message. */
  method CreateCategory(db: Database, dto: CategoryDto) returns (resp: Response)
    requires db.Valid()
    modifies db
    ensures db.Valid()
    ensures db.articles == old(db.articles) && db.comments == old(db.comments)
    ensures resp.status == 201 <==> dto.title.Some? && JavaTrim(dto.title.value) != ""
    ensures resp.status != 201 ==> resp == Response(500, ErrorBody(TITLE_EMPTY)) && db.categories == old(db.categories)
    ensures resp.status == 201 ==>
      var saved := Row(NextId(old(db.categories)), CategoryRecord(dto.title.value));
      resp.body == CategoryBody(saved) && db.categories == old(db.categories) + [saved]
  {
    var created := CategoryService.CreateCategory(db, dto);
    if created.Err? {
      resp := Response(500, ErrorBody(created.error));
    } else {
      resp := Response(201, CategoryBody(created.value));
    }
  }

  /** `getCategoryById`: 404 when the service answers null, else 200. */
  function GetCategory(db: Database, id: int): (resp: Response)
    reads db
    ensures resp.status == 200 <==> id in Ids(db.categories)
    ensures resp.status == 200 ==> resp.body.CategoryBody? && resp.body.category in db.categories && resp.body.category.id == id
    ensures resp.status != 200 ==> resp == Response(404, NoBody)
  {
    var found := Find(db.categories, id);
    if found.None? then Response(404, NoBody) else Response(200, CategoryBody(Row(id, found.value)))
  }

  /** `updateCategory`: 404 when the service answers null, 500 with no body
   *  when it throws, else 200 with the updated category. */
  method UpdateCategory(db: Database, id: int, dto: CategoryDto) returns (resp: Response)
    requires db.Valid()
    modifies db
    ensures db.Valid()
    ensures db.articles == old(db.articles) && db.comments == old(db.comments)
    ensures id !in Ids(old(db.categories)) ==> resp == Response(404, NoBody) && db.categories == old(db.categories)
    ensures id in Ids(old(db.categories)) && dto.title.None? ==>
      resp == Response(500, NoBody) && db.categories == old(db.categories)
    ensures id in Ids(old(db.categories)) && dto.title.Some? ==>
      resp == Response(200, CategoryBody(Row(id, CategoryRecord(dto.title.value))))
      && db.categories == Replace(old(db.categories), id, CategoryRecord(dto.title.value))
  {
    var updated := CategoryService.UpdateCategory(db, id, dto);
    match updated
    case Err(_) => resp := Response(500, NoBody);
    case Ok(None) => resp := Response(404, NoBody);
    case Ok(Some(row)) => resp := Response(200, CategoryBody(row));
  }

  /** `deleteCategory`: 204 after the delete, 500 when it throws. */
  method DeleteCategory(db: Database, id: int) returns (resp: Response)
    requires db.Valid()
    modifies db
    ensures db.Valid()
    ensures resp.status == 204 <==> id in Ids(old(db.categories))
    ensures resp.status != 204 ==>
      resp == Response(500, NoBody)
      && db.categories == old(db.categories) && db.articles == old(db.articles) && db.comments == old(db.comments)
    ensures resp.status == 204 ==>
      resp.body == NoBody
      && db.categories == Remove(old(db.categories), id)
      && db.articles == ArticlesOutside(old(db.articles), id)
      && db.comments == CommentsOutside(old(db.comments), ArticleIdsIn(old(db.articles), id))
    ensures id !in Ids(db.categories)
  {
    var deleted := CategoryService.DeleteCategory(db, id);
    if deleted.Err? {
      resp := Response(500, NoBody);
    } else {
      resp := Response(204, NoBody);
    }
  }
}
