/**
 * The shared HTTP client of the front end (`api.js`): the response-error
 * interceptor, the `sort` query parameter, the `categoryId` coercion done
 * before an article is sent, and the guards and URL rewrite of image
 * uploads. Requests themselves are not modelled.
 */
module ApiClient {
  import opened Common
  import AS = AuthService

  /** How a request failed, as the interceptor sees it: the server replied
   *  with an error status (and maybe `error`/`message` in its body), the
   *  request went out but nothing came back, or it was never sent. */
  datatype Failure =
    | ServerReplied(status: nat, bodyError: string, bodyMessage: string)
    | NoReply
    | NotSent(message: string)

  const NO_REPLY_MESSAGE := "No response from server. Please check your connection."
  const LOGIN_PATH := "/login"

  predicate IsUnauthorized(f: Failure) { f.ServerReplied? && f.status == 401 }

  /** The readable message attached to the error as `userMessage`. A server
   *  reply always yields a non-empty message, falling back to the status. */
  function UserMessage(f: Failure): (m: string)
    ensures f.ServerReplied? ==> m != ""
    ensures f.ServerReplied? && f.bodyError != "" ==> m == f.bodyError
    ensures f.ServerReplied? && f.bodyError == "" && f.bodyMessage != "" ==> m == f.bodyMessage
    ensures f.ServerReplied? && f.bodyError == "" && f.bodyMessage == "" ==>
      m == "Server error: " + NatToString(f.status)
    ensures f.NoReply? ==> m == NO_REPLY_MESSAGE
    ensures f.NotSent? ==> m == f.message
  {
    match f
    case ServerReplied(status, e, msg) => OrElse(OrElse(e, msg), "Server error: " + NatToString(status))
    case NoReply => NO_REPLY_MESSAGE
    case NotSent(msg) => msg
  }

  /** The stored user and the window location after the interceptor has
   *  seen a failure: a 401 removes the user and goes to the login page. */
  function SessionAfter(stored: Option<AS.StoredUser>, href: string, f: Failure): (r: (Option<AS.StoredUser>, string))
    ensures IsUnauthorized(f) ==> r == (None, LOGIN_PATH)
    ensures !IsUnauthorized(f) ==> r == (stored, href)
  {
    if IsUnauthorized(f) then (None, LOGIN_PATH) else (stored, href)
  }

  /** A second 401 (or any repeat of the same failure) changes nothing
   *  more. */
  lemma SessionAfterIdempotent(stored: Option<AS.StoredUser>, href: string, f: Failure)
    ensures var (s1, h1) := SessionAfter(stored, href, f); SessionAfter(s1, h1, f) == (s1, h1)
  {
  }

  class ApiError {
    const failure: Failure
    var userMessage: string

    constructor (f: Failure)
      ensures failure == f && userMessage == ""
    {
      failure := f;
      userMessage := "";
    }
  }

  class Window {
    var href: string

    constructor (start: string)
      ensures href == start
    {
      href := start;
    }
  }

  /** The response interceptor's error handler: attaches `userMessage`,
   *  clears the stored user and redirects on 401, and rejects with the
   *  same error. The pending MFA username is not touched. */
  method OnResponseError(session: AS.AuthClient, window: Window, err: ApiError) returns (rejected: ApiError)
    modifies session, window, err
    ensures rejected == err
    ensures err.userMessage == UserMessage(err.failure)
    ensures (session.stored, window.href) == SessionAfter(old(session.stored), old(window.href), err.failure)
    ensures session.pendingMfaUsername == old(session.pendingMfaUsername)
  {
    err.userMessage := UserMessage(err.failure);
    if IsUnauthorized(err.failure) {
      session.stored := None;
      window.href := LOGIN_PATH;
    }
    rejected := err;
  }

  /** The `sort` query parameter of the paged list requests. For a field
   *  without commas its first comma separates the field from the
   *  direction, which is where the server splits it. */
  function SortParam(field: string, direction: string): (p: string)
    ensures |p| == |field| + 1 + |direction|
    ensures p[..|field|] == field && p[|field|] == ',' && p[|field| + 1..] == direction
    ensures ',' !in field ==> IndexOf(p, ',') == |field|
  {
    var p := field + "," + direction;
    assert ',' !in field ==> IndexOf(p, ',') == |field| by {
      if ',' !in field {
        assert p == field + ("," + direction);
        IndexOfPrefix(field, ',', "," + direction);
      }
    }
    p
  }

  // ---------------------------------------------------------------------
  // categoryId coercion

  /** The JavaScript value held in `article.categoryId`. */
  datatype CategoryIdValue = Absent | Number(n: int) | NotANumber | Text(s: string)

  /** 2^53: up to this magnitude every integer is a JavaScript number. */
  const MAX_EXACT_INTEGER := 0x20_0000_0000_0000

  /** `if (categoryId && typeof categoryId === 'string') categoryId =
   *  parseInt(categoryId, 10)`: afterwards no non-empty string is left. */
  function Coerced(v: CategoryIdValue): (r: CategoryIdValue)
    ensures !(r.Text? && r.s != "")
    ensures !(v.Text? && v.s != "") ==> r == v
    ensures v.Text? && v.s != "" ==> r.Number? || r.NotANumber?
  {
    if v.Text? && v.s != "" then
      match ParseInt(v.s)
      case Some(n) => Number(n)
      case None => NotANumber
    else v
  }

  /** Coercing twice is the same as coercing once. */
  lemma CoercedIdempotent(v: CategoryIdValue)
    ensures Coerced(Coerced(v)) == Coerced(v)
  {
  }

  /** The decimal text of an id becomes that id, for every id a JavaScript
   *  number holds exactly. */
  lemma CoercedDecimalText(n: int)
    requires -MAX_EXACT_INTEGER <= n <= MAX_EXACT_INTEGER
    ensures Coerced(Text(IntToString(n))) == Number(n)
  {
    ParseIntRoundTrip(n);
  }

  class ArticlePayload {
    var categoryId: CategoryIdValue

    constructor (v: CategoryIdValue)
      ensures categoryId == v
    {
      categoryId := v;
    }
  }

  /** `createArticle` and `updateArticle` overwrite `article.categoryId`
   *  in place before sending. */
  method CoerceCategoryId(article: ArticlePayload)
    modifies article
    ensures article.categoryId == Coerced(old(article.categoryId))
  {
    if article.categoryId.Text? && article.categoryId.s != "" {
      var parsed := ParseInt(article.categoryId.s);
      article.categoryId := if parsed.Some? then Number(parsed.value) else NotANumber;
    }
  }

  // ---------------------------------------------------------------------
  // Image upload

  const MAX_UPLOAD_BYTES: nat := 5 * 1024 * 1024

  /** The checks `uploadImage` makes before sending anything; `file` is the
   *  chosen file's size, or `None` when there is no file. */
  function UploadGuard(file: Option<nat>): (r: Result<()>)
    ensures r.Ok? <==> file.Some? && file.value <= MAX_UPLOAD_BYTES
    ensures file.None? ==> r == Err("No file provided")
    ensures file.Some? && file.value > MAX_UPLOAD_BYTES ==> r == Err("File size exceeds 5MB limit")
  {
    if file.None? then Err("No file provided")
    else if file.value > MAX_UPLOAD_BYTES then Err("File size exceeds 5MB limit")
    else Ok(())
  }

  /** Index of the first char of `s` in `stops`, or `|s|`. */
  function IndexOfAny(s: string, stops: set<char>): (i: nat)
    ensures i <= |s|
    ensures i < |s| ==> s[i] in stops
    ensures forall k :: 0 <= k < i ==> s[k] !in stops
    decreases |s|
  {
    if s == [] || s[0] in stops then 0 else 1 + IndexOfAny(s[1..], stops)
  }

  /** `new URL(url).pathname` for a hierarchical URL
   *  `scheme://authority/path?query#fragment`, read as text: the path runs
   *  from the first '/', '?' or '#' after "://" (an empty path reads as
   *  "/"). `None` where there is no "://" after a non-empty scheme; an
   *  authority the URL constructor would refuse is not detected. */
  function Pathname(url: string): (p: Option<string>)
    ensures p.Some? ==> |p.value| > 0 && p.value[0] == '/'
    ensures p.Some? ==> '?' !in p.value && '#' !in p.value
  {
    var i := IndexOf(url, ':');
    if i == 0 || i + 3 > |url| || url[i..i + 3] != "://" then None
    else
      var rest := url[i + 3..];
      var afterHost := rest[IndexOfAny(rest, {'/', '?', '#'})..];
      var path := afterHost[..IndexOfAny(afterHost, {'?', '#'})];
      if path == [] then Some("/") else Some(path)
  }

  /** The rewrite applied to a successful upload's `url`: one containing
   *  "http" is replaced by its path (an unparsable one rejects the
   *  promise); others are returned unchanged. */
  function RewriteUploadUrl(url: string): (r: Result<string>)
    ensures !Contains(url, "http") ==> r == Ok(url)
    ensures Contains(url, "http") && r.Ok? ==> |r.value| > 0 && r.value[0] == '/'
  {
    if url != "" && Contains(url, "http") then
      match Pathname(url)
      case Some(p) => Ok(p)
      case None => Err("Invalid URL")
    else Ok(url)
  }

  /** A character the URL parser keeps as it is in a path: no
   *  percent-encoding, and no '\\' that special schemes read as '/'. */
  predicate PathSafeChar(c: char)
  {
    ('a' <= c <= 'z') || ('A' <= c <= 'Z') || ('0' <= c <= '9')
    || c in {'-', '_', '~', '.', '/', '!', '$', '&', '\'', '(', ')', '*', '+', ',', ';', '=', ':', '@'}
  }

  /** A rooted path the URL parser returns unchanged: only safe characters
   *  and no "." or ".." segment to be removed. */
  predicate CanonicalPath(path: string)
  {
    |path| > 0 && path[0] == '/'
    && (forall k :: 0 <= k < |path| ==> PathSafeChar(path[k]))
    && !Contains(path + "/", "/./") && !Contains(path + "/", "/../")
  }

  /** A character of a host name label. */
  predicate LabelChar(c: char)
  {
    ('a' <= c <= 'z') || ('A' <= c <= 'Z') || ('0' <= c <= '9') || c == '-'
  }

  /** Index just after the last '.' of `h`, or 0. */
  function AfterLastDot(h: string): (i: nat)
    ensures i <= |h|
    ensures '.' !in h[i..]
    ensures 0 < i ==> h[i - 1] == '.'
    decreases |h|
  {
    if h == [] then 0
    else if h[|h| - 1] == '.' then |h|
    else
      var i := AfterLastDot(h[..|h| - 1]);
      assert h[i..] == h[..|h| - 1][i..] + [h[|h| - 1]];
      i
  }

  /** A dotted host name the URL parser takes as a domain: non-empty
   *  labels of letters, digits and '-', the last one starting with a
   *  letter (so it is never read as an IPv4 number). */
  predicate HostName(h: string)
  {
    && |h| > 0
    && (forall k :: 0 <= k < |h| ==> LabelChar(h[k]) || h[k] == '.')
    && h[0] != '.' && h[|h| - 1] != '.' && !Contains(h, "..")
    && AfterLastDot(h) < |h|
    && (('a' <= h[AfterLastDot(h)] <= 'z') || ('A' <= h[AfterLastDot(h)] <= 'Z'))
  }

  /** An authority the URL parser accepts as it is: a host name, then
   *  optionally ':' and a port of at most five digits no larger than
   *  65535. */
  predicate PlainHost(host: string)
  {
    var c := IndexOf(host, ':');
    HostName(host[..c])
    && (c == |host| || (0 < |host| - c - 1 <= 5 && AllDigits(host[c + 1..]) && DigitsValue(host[c + 1..]) <= 65535))
  }

  /** An absolute upload URL `http://host/path` or `https://host/path` (as
   *  the upload endpoint returns it) is reduced to its path, for a host the
   *  URL parser accepts unchanged and a path it would not normalise. */
  lemma RewriteStripsOrigin(scheme: string, host: string, path: string)
    requires scheme == "http" || scheme == "https"
    requires PlainHost(host)
    requires CanonicalPath(path)
    ensures RewriteUploadUrl(scheme + "://" + host + path) == Ok(path)
  {
    assert '?' !in path && '#' !in path by {
      forall k | 0 <= k < |path|
        ensures path[k] != '?' && path[k] != '#'
      {
        assert PathSafeChar(path[k]);
      }
    }
    assert '/' !in host && '?' !in host && '#' !in host by {
      var c := IndexOf(host, ':');
      forall k | 0 <= k < |host|
        ensures host[k] != '/' && host[k] != '?' && host[k] != '#'
      {
        if k < c {
          assert host[..c][k] == host[k];
        } else if k > c {
          assert host[c + 1..][k - c - 1] == host[k];
        }
      }
    }
    assert StartsWith(scheme, "http");
    RootedPathStripped(scheme, host, path);
  }

  /** The text after the authority of `scheme://host/path`, for a rooted
   *  path without query or fragment. */
  lemma RootedPathStripped(scheme: string, host: string, path: string)
    requires scheme != "" && ':' !in scheme && Contains(scheme, "http")
    requires '/' !in host && '?' !in host && '#' !in host
    requires |path| > 0 && path[0] == '/' && '?' !in path && '#' !in path
    ensures RewriteUploadUrl(scheme + "://" + host + path) == Ok(path)
  {
    var url := scheme + "://" + host + path;
    assert url[..|scheme|] == scheme;
    ContainsPrefix(url, "http", |scheme|);
    var i := IndexOf(url, ':');
    assert url[|scheme|] == ':';
    assert i == |scheme|;
    assert url[i..i + 3] == "://";
    var rest := url[i + 3..];
    assert rest == host + path;
    var j := IndexOfAny(rest, {'/', '?', '#'});
    assert rest[|host|] == '/';
    assert j == |host|;
    assert rest[j..] == path;
    assert IndexOfAny(path, {'?', '#'}) == |path|;
    assert path[..|path|] == path;
  }
}
