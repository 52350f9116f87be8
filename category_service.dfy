/**
 * The category service (`CategoryServiceImpl.java`): creation with a blank
 * check, lookup, an update without checks, deletion with its cascade, and
 * the find-or-create by name that the CSV import relies on.
 */
module CategoryService {
  import opened Common
  import opened ContentRepository
  import opened ContentStore

  const TITLE_EMPTY := "Category title cannot be empty"
  /** The title column is declared not null (`Category.java:19`), so
   *  saving a null title fails when the transaction is flushed. */
  const TITLE_NULL := "not-null property references a null or transient value: title"
  /** The repository's delete of a missing id fails. */
  const NO_SUCH_CATEGORY := "No category entity with id "

  /** The request body; `None` is a JSON null or an absent key. */
  datatype CategoryDto = CategoryDto(title: Option<string>)

  /** `createCategory(dto)`: a null or blank title is refused; otherwise
   *  the title is saved exactly as sent, untrimmed. */
  method CreateCategory(db: Database, dto: CategoryDto) returns (r: Result<CategoryRow>)
    requires db.Valid()
    modifies db
    ensures db.Valid()
    ensures db.articles == old(db.articles) && db.comments == old(db.comments)
    ensures r.Err? <==> dto.title.None? || JavaTrim(dto.title.value) == ""
    ensures r.Err? ==> r.error == TITLE_EMPTY && db.categories == old(db.categories)
    ensures r.Ok? ==>
      r.value == Row(NextId(old(db.categories)), CategoryRecord(dto.title.value))
      && db.categories == Appended(old(db.categories), CategoryRecord(dto.title.value))
  {
    if dto.title.None? || JavaTrim(dto.title.value) == "" {
      return Err(TITLE_EMPTY);
    }
    var category := CategoryRecord(dto.title.value);
    AddCategoryConsistent(db.articles, db.categories, db.comments, category);
    var id := NextId(db.categories);
    db.categories := Appended(db.categories, category);
    r := Ok(Row(id, category));
  }

  /** `updateCategory(id, dto)`: a missing id gives null and writes
   *  nothing; otherwise the title is replaced with no blank check, and a
   *  null title fails on the column constraint. */
  method UpdateCategory(db: Database, id: int, dto: CategoryDto) returns (r: Result<Option<CategoryRow>>)
    requires db.Valid()
    modifies db
    ensures db.Valid()
    ensures db.articles == old(db.articles) && db.comments == old(db.comments)
    ensures id !in Ids(old(db.categories)) ==> r == Ok(None) && db.categories == old(db.categories)
    ensures id in Ids(old(db.categories)) && dto.title.None? ==>
      r == Err(TITLE_NULL) && db.categories == old(db.categories)
    ensures id in Ids(old(db.categories)) && dto.title.Some? ==>
      r == Ok(Some(Row(id, CategoryRecord(dto.title.value))))
      && db.categories == Replace(old(db.categories), id, CategoryRecord(dto.title.value))
      && Find(db.categories, id) == Some(CategoryRecord(dto.title.value))
  {
    var found := Find(db.categories, id);
    if found.None? {
      return Ok(None);
    }
    if dto.title.None? {
      return Err(TITLE_NULL);
    }
    var category := CategoryRecord(dto.title.value);
    ReplaceCategoryConsistent(db.articles, db.categories, db.comments, id, category);
    ReplaceFound(db.categories, id, category, id);
    db.categories := Replace(db.categories, id, category);
    r := Ok(Some(Row(id, category)));
  }

  /** `deleteCategory(id)`: the category goes, with the articles filed
   *  under it and their comments; deleting a missing id fails and changes
   *  nothing. */
  method DeleteCategory(db: Database, id: int) returns (r: Result<()>)
    requires db.Valid()
    modifies db
    ensures db.Valid()
    ensures id !in Ids(old(db.categories)) ==>
      r == Err(NO_SUCH_CATEGORY + IntToString(id))
      && db.categories == old(db.categories) && db.articles == old(db.articles) && db.comments == old(db.comments)
    ensures id in Ids(old(db.categories)) ==>
      r == Ok(())
      && db.categories == Remove(old(db.categories), id)
      && db.articles == ArticlesOutside(old(db.articles), id)
      && db.comments == CommentsOutside(old(db.comments), ArticleIdsIn(old(db.articles), id))
    ensures id !in Ids(db.categories)
    ensures forall a :: a in db.articles ==> a.value.categoryId != id
  {
    if id !in Ids(db.categories) {
      return Err(NO_SUCH_CATEGORY + IntToString(id));
    }
    DeleteCategoryConsistent(db.articles, db.categories, db.comments, id);
    RemoveFound(db.categories, id, id);
    var removed := ArticleIdsIn(db.articles, id);
    db.categories := Remove(db.categories, id);
    db.articles := ArticlesOutside(db.articles, id);
    db.comments := CommentsOutside(db.comments, removed);
    r := Ok(());
  }

  // ---------------------------------------------------------------------
  // findByName

  /** `c.getTitle().trim().equalsIgnoreCase(name.trim())`. */
  predicate SameName(title: string, name: string)
  {
    EqualsIgnoreCase(JavaTrim(title), JavaTrim(name))
  }

  /** The first category, in table order, whose title matches `name`. */
  function FirstNamed(categories: seq<CategoryRow>, name: string): (r: Option<CategoryRow>)
    ensures r.Some? ==> r.value in categories && SameName(r.value.value.title, name)
    ensures r.None? <==> forall c :: c in categories ==> !SameName(c.value.title, name)
    decreases |categories|
  {
    if categories == [] then None
    else if SameName(categories[0].value.title, name) then Some(categories[0])
    else FirstNamed(categories[1..], name)
  }

  /** The table after `findByName(name)`: unchanged when a category
   *  matches, otherwise with a category titled with the trimmed name. */
  function AfterFindByName(categories: seq<CategoryRow>, name: string): seq<CategoryRow>
  {
    if FirstNamed(categories, name).Some? then categories
    else Appended(categories, CategoryRecord(JavaTrim(name)))
  }

  /** A category titled with the trimmed name matches the name. */
  lemma TrimmedNameMatches(name: string)
    ensures SameName(JavaTrim(name), name)
  {
    TrimIdempotent(name, JavaSpace);
  }

  /** Looking up in a table extended at the end: the old rows come first. */
  lemma {:induction false} FirstNamedAppend(categories: seq<CategoryRow>, row: CategoryRow, name: string)
    requires FirstNamed(categories, name).None? && SameName(row.value.title, name)
    ensures FirstNamed(categories + [row], name) == Some(row)
    decreases |categories|
  {
    if categories == [] {
      assert ([] + [row])[0] == row;
    } else {
      assert (categories + [row])[1..] == categories[1..] + [row];
      FirstNamedAppend(categories[1..], row, name);
    }
  }

  /** After `findByName(name)` the name is found. */
  lemma FoundAfterFindByName(categories: seq<CategoryRow>, name: string)
    ensures FirstNamed(AfterFindByName(categories, name), name).Some?
  {
    if FirstNamed(categories, name).None? {
      var row := Row(NextId(categories), CategoryRecord(JavaTrim(name)));
      TrimmedNameMatches(name);
      FirstNamedAppend(categories, row, name);
    }
  }

  /** Calling `findByName` twice with the same name creates at most one
   *  category. */
  lemma FindByNameIdempotent(categories: seq<CategoryRow>, name: string)
    ensures AfterFindByName(AfterFindByName(categories, name), name) == AfterFindByName(categories, name)
  {
    FoundAfterFindByName(categories, name);
  }

  /** Names that differ only in case or surrounding white space find the
   *  same category. */
  lemma {:induction false} AlikeNamesFindAlike(categories: seq<CategoryRow>, a: string, b: string)
    requires EqualsIgnoreCase(JavaTrim(a), JavaTrim(b))
    ensures FirstNamed(categories, a) == FirstNamed(categories, b)
    decreases |categories|
  {
    if categories != [] {
      AlikeNamesFindAlike(categories[1..], a, b);
    }
  }

  /** `findByName(name)`: the first category whose trimmed title equals the
   *  trimmed name ignoring case, or else a new category titled with the
   *  trimmed name. */
  method FindByName(db: Database, name: string) returns (c: CategoryRow)
    requires db.Valid()
    modifies db
    ensures db.Valid()
    ensures db.articles == old(db.articles) && db.comments == old(db.comments)
    ensures db.categories == AfterFindByName(old(db.categories), name)
    ensures FirstNamed(old(db.categories), name).Some? ==> c == FirstNamed(old(db.categories), name).value
    ensures FirstNamed(old(db.categories), name).None? ==> c == Row(NextId(old(db.categories)), CategoryRecord(JavaTrim(name)))
    ensures FirstNamed(db.categories, name) == Some(c)
  {
    var existing := FirstNamed(db.categories, name);
    if existing.Some? {
      return existing.value;
    }
    var category := CategoryRecord(JavaTrim(name));
    AddCategoryConsistent(db.articles, db.categories, db.comments, category);
    c := Row(NextId(db.categories), category);
    TrimmedNameMatches(name);
    FirstNamedAppend(db.categories, c, name);
    db.categories := Appended(db.categories, category);
  }
}
