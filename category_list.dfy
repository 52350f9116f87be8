/**
 * The category administration page (`CategoryList.js`): sort and paging
 * handlers, the edit dialog's title field and the save decision. Request
 * outcomes are parameters; the refetch after a save is not modelled.
 */
module CategoryList {
  import opened Common
  import ArticleList

  /** The request `handleSave` makes, if any. */
  datatype SaveRequest = NoRequest | UpdateCategory(id: int, title: string) | CreateCategory(title: string)

  const TITLE_REQUIRED := "Title is required"

  /** The message shown after a failed save; `serverMessage` is
   *  `err.response.data.message` ("" when absent). */
  function SaveErrorText(serverMessage: string, updating: bool): (m: string)
    ensures m != ""
    ensures serverMessage != "" ==> m == serverMessage
    ensures serverMessage == "" && updating ==> m == "Failed to update category. Please try again."
    ensures serverMessage == "" && !updating ==> m == "Failed to create category. Please try again."
  {
    OrElse(serverMessage, if updating then "Failed to update category. Please try again."
                          else "Failed to create category. Please try again.")
  }

  class CategoryListState {
    var page: int
    var size: int
    var sortField: string
    var sortDirection: string
    var currentId: int
    var currentTitle: string
    var validationError: string
    var openDialog: bool
    var error: string

    constructor ()
      ensures page == 0 && size == 5 && sortField == "id" && sortDirection == "desc"
      ensures currentId == 0 && currentTitle == "" && validationError == "" && !openDialog && error == ""
    {
      page, size, sortField, sortDirection := 0, 5, "id", "desc";
      currentId, currentTitle, validationError, openDialog, error := 0, "", "", false, "";
    }

    /** `handleSort(field)`: the same toggle as the article list, but the
     *  page is kept. */
    method HandleSort(field: string)
      modifies this`sortField, this`sortDirection
      ensures (sortField, sortDirection) == ArticleList.NextSort(field, old(sortField), old(sortDirection))
    {
      if field == sortField {
        sortDirection := if sortDirection == "asc" then "desc" else "asc";
      } else {
        sortField := field;
        sortDirection := "desc";
      }
    }

    method HandleChangePage(newPage: int)
      modifies this`page
      ensures page == newPage - 1
    {
      page := newPage - 1;
    }

    method HandleChangeSize(newSize: int)
      modifies this`size, this`page
      ensures size == newSize && page == 0
    {
      size := newSize;
      page := 0;
    }

    /** `handleOpenDialog(category)`: the dialog edits the given category
     *  (id 0 for a new one) with no validation message showing. */
    method HandleOpenDialog(id: int, title: string)
      modifies this`currentId, this`currentTitle, this`validationError, this`openDialog
      ensures currentId == id && currentTitle == title && validationError == "" && openDialog
    {
      currentId, currentTitle := id, title;
      validationError := "";
      openDialog := true;
    }

    /** `handleChange`: typing a title clears the validation message. */
    method HandleChange(value: string)
      modifies this`currentTitle, this`validationError
      ensures currentTitle == value && validationError == ""
    {
      currentTitle := value;
      validationError := "";
    }

    /** `handleSave`: a blank title is refused without a request; a
     *  category with a (truthy) id is updated, any other created. A
     *  successful save closes the dialog. */
    method HandleSave(outcome: Result<()>, serverMessage: string) returns (request: SaveRequest)
      modifies this`validationError, this`openDialog, this`error
      ensures JsBlank(currentTitle) <==> request == NoRequest
      ensures request == NoRequest ==> validationError == TITLE_REQUIRED && openDialog == old(openDialog) && error == old(error)
      ensures request != NoRequest ==>
        request == (if currentId != 0 then UpdateCategory(currentId, currentTitle) else CreateCategory(currentTitle))
        && validationError == old(validationError)
      ensures request != NoRequest && outcome.Ok? ==> !openDialog && error == old(error)
      ensures request != NoRequest && outcome.Err? ==>
        openDialog == old(openDialog) && error == SaveErrorText(serverMessage, currentId != 0)
    {
      if JsBlank(currentTitle) {
        validationError := TITLE_REQUIRED;
        return NoRequest;
      }
      request := if currentId != 0 then UpdateCategory(currentId, currentTitle) else CreateCategory(currentTitle);
      if outcome.Ok? {
        openDialog := false;
      } else {
        error := SaveErrorText(serverMessage, currentId != 0);
      }
    }
  }
}
