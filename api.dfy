/**
 * The HTTP client adapter: the backend's reply envelopes, `getAllPosts`, the
 * request interceptor's bearer-token rule and the upload reply shared by the
 * editing pages.
 */
module Api {
  import opened Wrappers
  import opened Text
  import opened Seqs

  /**
   * A blog post as the backend sends it; `None` is a JSON `null` or a missing
   * field. The id, title and slug are always present, the title as a string.
   */
  datatype Post = Post(
    id: int,
    title: string,
    slug: string,
    image: Option<string>,
    description: Option<string>,
    contentBurmese: Option<string>)

  /** `post.title.toLowerCase().includes(searchTerm.toLowerCase())`: the search of both listings. */
  predicate TitleMatches(p: Post, term: string) {
    Includes(Lower(p.title), Lower(term))
  }

  /** The JSON body of `read.php`: `{ data: Post[] }` or `{ message }`. */
  datatype PostsBody = PostsBody(data: Option<seq<Post>>, message: Option<string>)

  /**
   * What `fetch` delivers: a status and a parsed body (`None` for JSON
   * `null`), or a rejection. `Rejected` also stands for an ok reply whose body
   * `.json()` cannot parse, which throws in the same place.
   */
  datatype HttpReply = Rejected | Response(status: int, body: Option<PostsBody>)

  /** Why a call threw. */
  datatype ApiError = HttpStatus(status: int) | Transport

  /** `directResponse.ok`. */
  predicate IsOk(status: int) {
    200 <= status <= 299
  }

  /**
   * `getAllPosts`: throws on a rejected fetch or a status outside 2xx, and
   * otherwise wraps the parsed body as `{ data }`.
   */
  function GetAllPosts(reply: HttpReply): (r: Result<Option<PostsBody>, ApiError>)
    ensures reply.Rejected? ==> r == Failure(Transport)
    ensures reply.Response? && !IsOk(reply.status) ==> r == Failure(HttpStatus(reply.status))
    ensures reply.Response? && IsOk(reply.status) ==> r == Success(reply.body)
  {
    match reply
    case Rejected => Failure(Transport)
    case Response(status, body) => if IsOk(status) then Success(body) else Failure(HttpStatus(status))
  }

  /** The endpoints the interceptor attaches the bearer token to. */
  const ProtectedEndpoints: seq<string> := [
    "/api/posts/create.php", "/api/posts/update.php", "/api/posts/delete.php",
    "/api/upload.php", "/api/auth/verify.php"]

  /** `protectedEndpoints.some(endpoint => config.url?.includes(endpoint))`. */
  predicate IsProtected(url: Option<string>) {
    url.Some? && exists i :: 0 <= i < |ProtectedEndpoints| && Includes(url.value, ProtectedEndpoints[i])
  }

  /** The local-storage keys of the session. */
  const TokenKey := "auth_token"
  const UserKey := "user"

  /** `localStorage.getItem('auth_token')`. */
  function StoredToken(storage: map<string, string>): (t: Option<string>)
    ensures t.Some? <==> TokenKey in storage
    ensures t.Some? ==> t.value == storage[TokenKey]
  {
    if TokenKey in storage then Some(storage[TokenKey]) else None
  }

  /**
   * The `Authorization` header the interceptor adds, if any: `Bearer <token>`
   * for a protected URL when a (non-empty) token is stored.
   */
  function AuthorizationFor(url: Option<string>, token: Option<string>): (h: Option<string>)
    ensures h.Some? <==> IsProtected(url) && Truthy(token)
    ensures h.Some? ==> h.value == "Bearer " + token.value
  {
    if IsProtected(url) && Truthy(token) then Some("Bearer " + token.value) else None
  }

  /** An axios request config; the interceptor mutates its headers in place. */
  class RequestConfig {
    var url: Option<string>
    var headers: map<string, string>

    constructor (url: Option<string>, headers: map<string, string>)
      ensures this.url == url && this.headers == headers
    {
      this.url := url;
      this.headers := headers;
    }
  }

  /**
   * The request interceptor: sets `Authorization` on a protected request when
   * a token is stored, leaves every other config untouched, and returns the
   * same config object.
   */
  method InterceptRequest(config: RequestConfig, storage: map<string, string>) returns (out: RequestConfig)
    modifies config
    ensures out == config && config.url == old(config.url)
    ensures AuthorizationFor(config.url, StoredToken(storage)).Some? ==>
      config.headers == old(config.headers)["Authorization" := AuthorizationFor(config.url, StoredToken(storage)).value]
    ensures AuthorizationFor(config.url, StoredToken(storage)).None? ==> config.headers == old(config.headers)
  {
    var isProtected := IsProtected(config.url);
    if isProtected {
      var token := StoredToken(storage);
      if token.Some? && token.value != "" {
        config.headers := config.headers["Authorization" := "Bearer " + token.value];
      }
    }
    out := config;
  }

  /** Every endpoint of the list is protected, however the URL continues (a query string, say). */
  lemma ProtectedWithSuffix(base: string, i: nat, suffix: string)
    requires i < |ProtectedEndpoints|
    ensures IsProtected(Some(base + ProtectedEndpoints[i] + suffix))
  {
    var e := ProtectedEndpoints[i];
    IncludesSelf(e);
    IncludesAppendRight(e, suffix, e);
    IncludesAppendLeft(base, e + suffix, e);
    assert base + e + suffix == base + (e + suffix);
  }

  /** A URL that already matches stays protected when text is appended to it. */
  lemma ProtectedAppend(url: string, suffix: string)
    requires IsProtected(Some(url))
    ensures IsProtected(Some(url + suffix))
  {
    var i :| 0 <= i < |ProtectedEndpoints| && Includes(url, ProtectedEndpoints[i]);
    IncludesAppendRight(url, suffix, ProtectedEndpoints[i]);
  }

  /** The public read endpoint is not on the list. */
  lemma ReadUnprotected()
    ensures !IsProtected(Some("/api/posts/read.php"))
  {
    NotProtected("/api/posts/read.php", 'u');
  }

  /** Neither the login nor the logout endpoint is on the list. */
  lemma AuthEndpointsUnprotected()
    ensures !IsProtected(Some("/api/auth/login.php"))
    ensures !IsProtected(Some("/api/auth/logout.php"))
  {
    NotProtected("/api/auth/login.php", 'd');
    NotProtected("/api/auth/logout.php", 'd');
  }

  /**
   * A URL of at most 20 characters is unprotected when it differs from the
   * verify endpoint and lacks a character of the upload endpoint.
   */
  lemma NotProtected(url: string, c: char)
    requires |url| <= 20 && url != ProtectedEndpoints[4]
    requires c in ProtectedEndpoints[3] && c !in url
    ensures !IsProtected(Some(url))
  {
    forall i | 0 <= i < |ProtectedEndpoints| ensures !Includes(url, ProtectedEndpoints[i]) {
      if Includes(url, ProtectedEndpoints[i]) {
        IncludesLength(url, ProtectedEndpoints[i]);
        if i == 3 { IncludesElement(url, ProtectedEndpoints[i], c); }
      }
    }
  }

  /** Matching is by substring: a slug containing an endpoint path makes a read protected. */
  lemma SlugCanMatchEndpoint()
    ensures IsProtected(Some("/api/posts/read_single.php?slug=" + "/api/upload.php"))
  {
    ProtectedWithSuffix("/api/posts/read_single.php?slug=", 3, "");
    assert "/api/posts/read_single.php?slug=" + "/api/upload.php" + "" == "/api/posts/read_single.php?slug=" + "/api/upload.php";
  }

  /** Whether a mutating backend call (create, update, delete) completed or threw. */
  datatype CallOutcome = Completed | Threw

  /** A file chosen in a file input: its MIME type (`file.type`) and size in bytes. */
  datatype File = File(name: string, mime: string, size: nat)

  /** `file.type.startsWith('image/')`. */
  predicate IsImageType(f: File) {
    StartsWith(f.mime, "image/")
  }

  /** `uploadImage`'s reply as the callers read it: `response.data.filename`, or a throw. */
  datatype UploadReply = Replied(filename: Option<string>) | UploadThrew

  /** `response.data && response.data.filename` is truthy. */
  predicate HasFilename(reply: UploadReply) {
    reply.Replied? && Truthy(reply.filename)
  }

  /** Where uploaded images are served from. */
  const UploadsBase := "http://sheinhtutoo-backend.infinityfree.me/uploads/"

  /** The public URL of an uploaded file. */
  function UploadedImageUrl(filename: string): (url: string)
    ensures StartsWith(url, UploadsBase) && url[|UploadsBase|..] == filename
  {
    UploadsBase + filename
  }
}
