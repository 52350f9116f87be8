/**
 * `getImageUrl` of the front end (`imageHelper.js`): turns whatever image
 * path an article carries into a URL the browser can load. The page's
 * `window.location.origin` is a parameter.
 */
module ImageHelper {
  import opened Common

  const UPLOAD_FILES := "/api/upload/files/"

  /** `getImageUrl(imagePath)`; `None` is the `null` returned for a falsy
   *  path. */
  function ImageUrl(origin: string, imagePath: string): (url: Option<string>)
    ensures url.None? <==> imagePath == ""
    ensures StartsWith(imagePath, "http") ==> url == Some(imagePath)
    ensures imagePath != "" && imagePath[0] != '/' && !StartsWith(imagePath, "http") ==>
      url == Some(origin + UPLOAD_FILES + imagePath)
  {
    if imagePath == "" then None
    else if StartsWith(imagePath, "http") then Some(imagePath)
    else if StartsWith(imagePath, UPLOAD_FILES) then Some(origin + imagePath)
    else if StartsWith(imagePath, "/api") then Some(origin + "/api" + imagePath[4..])
    else if StartsWith(imagePath, "/") then Some(origin + imagePath)
    else Some(origin + UPLOAD_FILES + imagePath)
  }

  /** Every rooted path, whichever branch handles it, becomes origin plus
   *  the path: the '/api' branch rebuilds the same string. */
  lemma RootedPathPrefixedByOrigin(origin: string, imagePath: string)
    requires StartsWith(imagePath, "/")
    ensures ImageUrl(origin, imagePath) == Some(origin + imagePath)
  {
    assert imagePath[0] == "/"[0] == '/';
    assert "http"[0] == 'h';
    if StartsWith(imagePath, "/api") && !StartsWith(imagePath, UPLOAD_FILES) {
      assert imagePath == "/api" + imagePath[4..];
      assert origin + "/api" + imagePath[4..] == origin + ("/api" + imagePath[4..]);
    }
  }
}
