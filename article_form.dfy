/**
 * The article editor (`ArticleForm.js`): form validation, the per-field
 * change handler, the image checks, the values sent on submit and the
 * load-failure text. Requests, the preview reader and navigation are not
 * modelled.
 */
module ArticleForm {
  import opened Common
  import Api = ApiClient

  datatype Field = Title | Content | CategoryId | StatusEnum | ImagePath

  datatype FormData = FormData(title: string, content: string, categoryId: Api.CategoryIdValue,
                               statusEnum: string, imagePath: string)

  /** The file picked for upload: its MIME type and size in bytes. */
  datatype ImageFile = ImageFile(mimeType: string, size: nat)

  const MAX_CONTENT := 4000
  const MAX_IMAGE_BYTES: nat := 5 * 1024 * 1024

  /** JavaScript truthiness of a `categoryId` value. */
  predicate Truthy(v: Api.CategoryIdValue)
  {
    (v.Number? && v.n != 0) || (v.Text? && v.s != "")
  }

  /** The errors `validateForm` collects, one entry per failing field. */
  function FormErrors(f: FormData): (errors: map<Field, string>)
    ensures Title in errors <==> JsBlank(f.title)
    ensures Content in errors <==> JsBlank(f.content) || |f.content| > MAX_CONTENT
    ensures CategoryId in errors <==> !Truthy(f.categoryId)
    ensures StatusEnum in errors <==> f.statusEnum == ""
    ensures ImagePath !in errors
    ensures Title in errors ==> errors[Title] == "Title is required"
    ensures Content in errors ==>
      errors[Content] == if JsBlank(f.content) then "Content is required" else "Content must be less than 4000 characters"
    ensures CategoryId in errors ==> errors[CategoryId] == "Category is required"
    ensures StatusEnum in errors ==> errors[StatusEnum] == "Status is required"
  {
    var e0: map<Field, string> := map[];
    var e1 := if JsBlank(f.title) then e0[Title := "Title is required"] else e0;
    var e2 := if JsBlank(f.content) then e1[Content := "Content is required"]
              else if |f.content| > MAX_CONTENT then e1[Content := "Content must be less than 4000 characters"]
              else e1;
    var e3 := if !Truthy(f.categoryId) then e2[CategoryId := "Category is required"] else e2;
    if f.statusEnum == "" then e3[StatusEnum := "Status is required"] else e3
  }

  /** The length limit counts the untrimmed text, and 4000 chars pass. */
  lemma ContentLimit(f: FormData)
    requires !JsBlank(f.content)
    ensures Content !in FormErrors(f) <==> |f.content| <= MAX_CONTENT
  {
  }

  /** A form that passes has a title and content that are not blank, at
   *  most 4000 chars of content, a category and a status. */
  lemma ValidFormShape(f: FormData)
    ensures FormErrors(f) == map[] <==>
      !JsBlank(f.title) && !JsBlank(f.content) && |f.content| <= MAX_CONTENT && Truthy(f.categoryId) && f.statusEnum != ""
  {
    if FormErrors(f) == map[] {
      assert Title !in FormErrors(f);
    }
    if !JsBlank(f.title) && !JsBlank(f.content) && |f.content| <= MAX_CONTENT && Truthy(f.categoryId) && f.statusEnum != "" {
      var e := FormErrors(f);
      assert e.Keys == {} by {
        forall k | k in e ensures false {
          match k
          case Title =>
          case Content =>
          case CategoryId =>
          case StatusEnum =>
          case ImagePath =>
        }
      }
    }
  }

  const NOT_AN_IMAGE := "Please select an image file (JPEG, PNG, etc.)"
  const IMAGE_TOO_LARGE := "Image file size should be less than 5MB"

  /** The checks of `handleImageChange` on a chosen file: the type test
   *  comes first, so a large non-image file is reported as not an image. */
  function ImageCheck(file: ImageFile): (r: Result<()>)
    ensures r.Ok? <==> Contains(file.mimeType, "image") && file.size <= MAX_IMAGE_BYTES
    ensures !Contains(file.mimeType, "image") ==> r == Err(NOT_AN_IMAGE)
    ensures Contains(file.mimeType, "image") && file.size > MAX_IMAGE_BYTES ==> r == Err(IMAGE_TOO_LARGE)
  {
    if !Contains(file.mimeType, "image") then Err(NOT_AN_IMAGE)
    else if file.size > MAX_IMAGE_BYTES then Err(IMAGE_TOO_LARGE)
    else Ok(())
  }

  /** The `imagePath` sent on submit: the uploaded URL when a new file was
   *  chosen, else the form's path, never absent. */
  function FinalImagePath(newFile: bool, uploadedUrl: string, formPath: string): (p: string)
    ensures newFile ==> p == uploadedUrl
    ensures !newFile ==> p == formPath
  {
    OrElse(if newFile then uploadedUrl else formPath, "")
  }

  /** The `categoryId` sent on submit: a string is parsed, a falsy value
   *  becomes `null` (`Absent`). */
  function SubmittedCategoryId(v: Api.CategoryIdValue): (r: Api.CategoryIdValue)
    ensures !Truthy(v) ==> r == Api.Absent
    ensures Truthy(v) ==> r == Api.Coerced(v)
  {
    if !Truthy(v) then Api.Absent
    else if v.Text? then (match ParseInt(v.s) case Some(n) => Api.Number(n) case None => Api.NotANumber)
    else v
  }

  /** The message shown when loading the article to edit fails. */
  function LoadErrorText(id: string, failure: Api.Failure): (m: string)
    ensures failure.ServerReplied? && failure.status == 404 ==> m == "Article with ID " + id + " not found."
    ensures failure.ServerReplied? && failure.status == 403 ==> m == "You do not have permission to view this article."
    ensures failure.ServerReplied? && failure.status != 404 && failure.status != 403 ==>
      m == if failure.bodyError != "" then "Error: " + failure.bodyError else "Failed to load article. Please try again later."
    ensures failure.NoReply? ==> m == "No response received from server. Please check your connection."
    ensures failure.NotSent? ==> m == "Error: " + failure.message
  {
    match failure
    case ServerReplied(status, e, _) =>
      if status == 404 then "Article with ID " + id + " not found."
      else if status == 403 then "You do not have permission to view this article."
      else if e != "" then "Error: " + e
      else "Failed to load article. Please try again later."
    case NoReply => "No response received from server. Please check your connection."
    case NotSent(msg) => "Error: " + msg
  }

  /** The validation messages after editing `name`: its own message, if
   *  any, becomes empty. */
  function Cleared(errors: map<Field, string>, name: Field): (r: map<Field, string>)
    ensures r.Keys == errors.Keys
    ensures forall f :: f in r && f != name ==> r[f] == errors[f]
    ensures name in r ==> r[name] == ""
  {
    if name in errors && errors[name] != "" then errors[name := ""] else errors
  }

  class ArticleEditor {
    var formData: FormData
    var validationErrors: map<Field, string>
    var error: string
    var imageFile: Option<ImageFile>

    constructor ()
      ensures formData == FormData("", "", Api.Text(""), "PUBLISHED", "")
      ensures validationErrors == map[] && error == "" && imageFile == None
    {
      formData := FormData("", "", Api.Text(""), "PUBLISHED", "");
      validationErrors := map[];
      error := "";
      imageFile := None;
    }

    /** `validateForm()`: fills the error map field by field and reports
     *  whether it stayed empty. */
    method ValidateForm() returns (valid: bool)
      modifies this`validationErrors
      ensures validationErrors == FormErrors(formData)
      ensures valid <==> validationErrors == map[]
    {
      var errors: map<Field, string> := map[];
      if JsBlank(formData.title) {
        errors := errors[Title := "Title is required"];
      }
      if JsBlank(formData.content) {
        errors := errors[Content := "Content is required"];
      } else if |formData.content| > MAX_CONTENT {
        errors := errors[Content := "Content must be less than 4000 characters"];
      }
      if !Truthy(formData.categoryId) {
        errors := errors[CategoryId := "Category is required"];
      }
      if formData.statusEnum == "" {
        errors := errors[StatusEnum := "Status is required"];
      }
      validationErrors := errors;
      valid := errors == map[];
    }

    /** `handleChange` with a string value: the named field takes it and
     *  only that field's validation message is cleared. */
    method HandleChange(name: Field, value: string)
      modifies this`formData, this`validationErrors
      ensures name == Title ==> formData == old(formData).(title := value)
      ensures name == Content ==> formData == old(formData).(content := value)
      ensures name == CategoryId ==> formData == old(formData).(categoryId := Api.Text(value))
      ensures name == StatusEnum ==> formData == old(formData).(statusEnum := value)
      ensures name == ImagePath ==> formData == old(formData).(imagePath := value)
      ensures validationErrors == Cleared(old(validationErrors), name)
    {
      match name {
        case Title => formData := formData.(title := value);
        case Content => formData := formData.(content := value);
        case CategoryId => formData := formData.(categoryId := Api.Text(value));
        case StatusEnum => formData := formData.(statusEnum := value);
        case ImagePath => formData := formData.(imagePath := value);
      }
      if name in validationErrors && validationErrors[name] != "" {
        validationErrors := validationErrors[name := ""];
      }
    }

    /** `handleChange` from the category select, whose values are the
     *  numeric category ids. */
    method HandleCategoryPick(id: int)
      modifies this`formData, this`validationErrors
      ensures formData == old(formData).(categoryId := Api.Number(id))
      ensures validationErrors == Cleared(old(validationErrors), CategoryId)
    {
      formData := formData.(categoryId := Api.Number(id));
      if CategoryId in validationErrors && validationErrors[CategoryId] != "" {
        validationErrors := validationErrors[CategoryId := ""];
      }
    }

    /** `handleImageChange`: a rejected file leaves the chosen file alone
     *  and sets the error; an accepted one is kept and clears it. */
    method HandleImageChange(file: Option<ImageFile>)
      modifies this`imageFile, this`error
      ensures file.None? ==> imageFile == old(imageFile) && error == old(error)
      ensures file.Some? && ImageCheck(file.value).Err? ==>
        imageFile == old(imageFile) && error == ImageCheck(file.value).error
      ensures file.Some? && ImageCheck(file.value).Ok? ==> imageFile == file && error == ""
    {
      if file.Some? {
        var check := ImageCheck(file.value);
        if check.Err? {
          error := check.error;
          return;
        }
        imageFile := file;
        error := "";
      }
    }
  }
}
