/** The shared request helper `apiFetch` (src/libs/apiClient.ts): how it builds
    the address and the headers, and how it turns a response into a result or
    an error message. The network call itself is not modelled: the response
    is a parameter. */
module ApiClient {

  import opened Interfaces
  import opened Text

  /** The base address followed by the path, a slash inserted when the path
      lacks one. */
  function RequestUrl(base: string, path: string): (url: string)
    ensures StartsWith(url, base)
    ensures |url| > |base| && url[|base|] == '/'
    ensures StartsWith(path, "/") ==> url == base + path
    ensures !StartsWith(path, "/") ==> url == base + "/" + path
  {
    var tail := if StartsWith(path, "/") then path else "/" + path;
    assert (base + tail)[..|base|] == base;
    base + tail
  }

  /** A path with or without its leading slash names the same address. */
  lemma LeadingSlashOptional(base: string, path: string)
    requires !StartsWith(path, "/")
    ensures RequestUrl(base, path) == RequestUrl(base, "/" + path)
  {
    assert StartsWith("/" + path, "/");
    assert base + "/" + path == base + ("/" + path);
  }

  const ContentType: string := "Content-Type"
  const Authorization: string := "Authorization"

  /** The request headers: JSON by default, the caller's headers on top, and the
      bearer token when there is one and authentication is not skipped. */
  function MergedHeaders(caller: map<string, string>, token: string, skipAuth: bool): (h: map<string, string>)
    ensures ContentType in h
    ensures ContentType !in caller ==> h[ContentType] == "application/json"
    ensures token != "" && !skipAuth ==>
      Authorization in h && h[Authorization] == "Bearer " + token
    ensures token == "" || skipAuth ==>
      (Authorization in h <==> Authorization in caller)
    ensures forall k :: k in caller && (k != Authorization || token == "" || skipAuth) ==>
      k in h && h[k] == caller[k]
    ensures forall k :: k in h ==> k in caller || k == ContentType || k == Authorization
  {
    var merged := map[ContentType := "application/json"] + caller;
    if token != "" && !skipAuth then merged[Authorization := "Bearer " + token] else merged
  }

  /** The members of a JSON body the error chain reads; `None` is absent. */
  datatype Body = Body(error: Option<string>, message: Option<string>, msg: Option<string>, success: Option<bool>)

  /** `{}`: what a body that is not JSON is replaced by. */
  const EmptyBody: Body := Body(None, None, None, None)

  /** A response: its status, status text and the body, `None` when it does
      not parse as JSON. */
  datatype Response = Response(status: nat, statusText: string, json: Option<Body>)

  function BodyOf(r: Response): Body {
    match r.json case Some(b) => b case None => EmptyBody
  }

  /** `response.ok`. */
  predicate IsOk(status: nat) {
    200 <= status <= 299
  }

  /** A string member counts when present and non-empty (JavaScript truthiness). */
  predicate Truthy(v: Option<string>) {
    v.Some? && v.value != ""
  }

  const Rejected: string := "Request rejected by the server"

  /** The message of the error thrown for a failed response: the first truthy
      of the body's `error`, `message` and `msg`, then a rejection notice when
      the body says `success: false`, then the status text, then the status. */
  function ErrorMessage(r: Response): string {
    var b := BodyOf(r);
    if Truthy(b.error) then b.error.value
    else if Truthy(b.message) then b.message.value
    else if Truthy(b.msg) then b.msg.value
    else if b.success == Some(false) then Rejected
    else if r.statusText != "" then r.statusText
    else "Request failed (" + DecimalString(r.status) + ")"
  }

  /** The message is never empty, and each source is used exactly when every
      earlier one is missing. */
  lemma ErrorMessageSpec(r: Response)
    ensures ErrorMessage(r) != ""
    ensures Truthy(BodyOf(r).error) ==> ErrorMessage(r) == BodyOf(r).error.value
    ensures !Truthy(BodyOf(r).error) && Truthy(BodyOf(r).message) ==> ErrorMessage(r) == BodyOf(r).message.value
    ensures !Truthy(BodyOf(r).error) && !Truthy(BodyOf(r).message) && Truthy(BodyOf(r).msg) ==>
      ErrorMessage(r) == BodyOf(r).msg.value
    ensures r.json.None? ==>
      ErrorMessage(r) == (if r.statusText != "" then r.statusText else "Request failed (" + DecimalString(r.status) + ")")
  {
  }

  /** The status can be read back from the last-resort message. */
  lemma StatusInMessage(status: nat)
    ensures var m := ErrorMessage(Response(status, "", None));
      |m| > 16 && m[..16] == "Request failed (" && ParseInt(m[16..]) == Some(status)
  {
    var m := ErrorMessage(Response(status, "", None));
    var digits := DecimalString(status);
    assert m == "Request failed (" + digits + ")";
    assert m[16..] == digits + ")";
    ParseIntPrefix(status, ")");
  }

  /** What `apiFetch` resolves to or throws. */
  function Outcome(r: Response): (result: Result<Body>)
    ensures IsOk(r.status) ==> result == Ok(BodyOf(r))
    ensures !IsOk(r.status) ==> result.Err? && result.message != ""
  {
    ErrorMessageSpec(r);
    if IsOk(r.status) then Ok(BodyOf(r)) else Err(ErrorMessage(r))
  }
}
