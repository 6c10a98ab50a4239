/**
 * The documentation page: the URL of the project's README is built from the
 * stored settings (the documentation base and the proxy), the text is
 * fetched once on mount, and the outcome becomes the text or one of four
 * error messages.
 */
module DocumentPage {
  import opened Wrappers
  import opened JsText
  import opened Json
  import opened LocalStorage
  import opened AppSettings

  const DocFile: string := "docs/README.md"
  const FallbackDocUrl: string := "https://codespace.lantian.pro/LantianCloud/Brick/raw/branch/main/docs/README.md"

  const FormatMessage: string := "文档内容格式错误"
  const NotFoundMessage: string := "默认文档未找到: /docs/README.md"
  const TimeoutMessage: string := "请求超时，请检查网络连接"
  const FailurePrefix: string := "加载文档失败："
  const UnknownError: string := "未知错误"

  /** The parts of a parsed absolute URL that the page keeps: `protocol`, `host`, `pathname`. */
  datatype UrlParts = UrlParts(protocol: string, host: string, pathname: string)

  /** The base with one `/` appended unless it already ends with one. */
  function EnsureSlash(b: string): string
  {
    if EndsWith(b, "/") then b else b + "/"
  }

  /**
   * The document URL. Without settings or without a documentation base, the
   * fixed fall-back. A base that is not text has no `endsWith`: the call
   * throws, which is `None` here. Otherwise the base, with a slash, then
   * `docs/README.md`; with a proxy set, the proxy, a slash, and the URL
   * reduced to protocol, host and path when `parseUrl` (the `URL`
   * constructor) accepts it, or the URL itself when it throws.
   */
  function DocUrl(s: Json, parseUrl: string -> Option<UrlParts>): Option<string>
  {
    var base := Get(s, DocBaseField);
    if !Truthy(s) || !TruthyOpt(base) then Some(FallbackDocUrl)
    else if !base.value.JString? then None
    else
      var direct := EnsureSlash(base.value.s) + DocFile;
      var proxy := Get(s, ProxyField);
      if !TruthyOpt(proxy) then Some(direct)
      else match parseUrl(direct)
        case Some(u) => Some(ToText(proxy.value) + "/" + u.protocol + "//" + u.host + u.pathname)
        case None => Some(ToText(proxy.value) + "/" + direct)
  }

  /** Appending the slash yields a text ending in exactly the base and one separator. */
  lemma EnsureSlashShape(b: string)
    ensures EndsWith(EnsureSlash(b), "/")
    ensures EnsureSlash(b) == b || EnsureSlash(b) == b + "/"
    ensures EnsureSlash(EnsureSlash(b)) == EnsureSlash(b)
    ensures !EndsWith(b, "/") ==> EnsureSlash(b + "/") == EnsureSlash(b)
  {
    assert EndsWith(b + "/", "/") by {
      assert (b + "/")[|b + "/"| - 1..] == "/";
    }
  }

  /**
   * Without a proxy, a text base gives the base, one separator, and the
   * document path; a base with or without its trailing slash gives the same URL.
   */
  lemma DirectDocUrl(s: Json, base: string, parseUrl: string -> Option<UrlParts>)
    requires Truthy(s) && Get(s, DocBaseField) == Some(JString(base)) && base != []
    requires !TruthyOpt(Get(s, ProxyField))
    ensures DocUrl(s, parseUrl) == Some(EnsureSlash(base) + DocFile)
    ensures var u := DocUrl(s, parseUrl).value;
      |u| > |base| && u[..|base|] == base && EndsWith(u, "/" + DocFile)
  {
    EnsureSlashShape(base);
    var u := EnsureSlash(base) + DocFile;
    var w := EnsureSlash(base);
    assert w[|w| - 1] == '/';
    assert u[..|base|] == w[..|base|];
    assert u[|u| - |"/" + DocFile|..] == [w[|w| - 1]] + DocFile;
  }

  /** With a proxy, whatever the parse gives, the request goes through the proxy. */
  lemma ProxiedDocUrl(s: Json, parseUrl: string -> Option<UrlParts>)
    requires Truthy(s) && TruthyOpt(Get(s, DocBaseField)) && Get(s, DocBaseField).value.JString?
    requires TruthyOpt(Get(s, ProxyField))
    ensures DocUrl(s, parseUrl).Some?
    ensures var pre := ToText(Get(s, ProxyField).value) + "/";
      var u := DocUrl(s, parseUrl).value;
      |u| >= |pre| && u[..|pre|] == pre
  {
    var pre := ToText(Get(s, ProxyField).value) + "/";
    var direct := EnsureSlash(Get(s, DocBaseField).value.s) + DocFile;
    match parseUrl(direct)
    case Some(p) =>
      assert DocUrl(s, parseUrl).value == pre + (p.protocol + "//" + p.host + p.pathname);
    case None =>
      assert DocUrl(s, parseUrl).value == pre + direct;
  }

  /** The URL throws exactly when settings name a documentation base that is truthy but not text. */
  lemma DocUrlThrowsIff(s: Json, parseUrl: string -> Option<UrlParts>)
    ensures DocUrl(s, parseUrl).None? <==>
      Truthy(s) && TruthyOpt(Get(s, DocBaseField)) && !Get(s, DocBaseField).value.JString?
    ensures !Truthy(s) || !TruthyOpt(Get(s, DocBaseField)) ==> DocUrl(s, parseUrl) == Some(FallbackDocUrl)
  {
  }

  /** A rejection from the HTTP client: an axios error, another `Error`, or a thrown non-error. */
  datatype Failure =
    | AxiosError(status: Option<int>, code: string, message: string)
    | OtherError(message: string)
    | NotAnError

  /** The response of the GET request, or its rejection. */
  datatype Outcome = Response(status: int, data: Json) | Rejected(failure: Failure)

  /** The page's state after a fetch: the text, or the error message (`None` for `null`). */
  datatype DocState = DocState(content: string, error: Option<string>, loading: bool)

  /** The caught error's message. */
  function FailureMessage(f: Failure): string
  {
    match f
    case AxiosError(status, code, message) =>
      if status == Some(404) then NotFoundMessage
      else if code == "ECONNABORTED" then TimeoutMessage
      else FailurePrefix + message
    case OtherError(message) => FailurePrefix + message
    case NotAnError => FailurePrefix + UnknownError
  }

  /** The state an outcome leads to from `prev`; only a 200 response with a text body sets the content. */
  function Settle(prev: DocState, o: Outcome): DocState
  {
    match o
    case Response(status, data) =>
      if status == 200 && data.JString? then prev.(content := data.s, loading := false)
      else prev.(error := Some(FormatMessage), loading := false)
    case Rejected(f) => prev.(error := Some(FailureMessage(f)), loading := false)
  }

  /** What the page renders. */
  datatype Screen = ErrorScreen(message: string) | LoadingScreen | EmptyScreen | ContentScreen(text: string)

  function Render(d: DocState): Screen
  {
    if d.error.Some? && d.error.value != [] then ErrorScreen(d.error.value)
    else if d.loading then LoadingScreen
    else if d.content == [] then EmptyScreen
    else ContentScreen(d.content)
  }

  /**
   * After one run of the effect from the initial state, the page shows the
   * fetched text exactly when the answer was a 200 with a non-empty text
   * body, the empty-document notice for an empty one, and an error otherwise.
   */
  lemma SettleRendersOutcome(o: Outcome)
    ensures var d := Settle(DocState("", None, true), o);
      && !d.loading
      && (Render(d).ContentScreen? <==> o.Response? && o.status == 200 && o.data.JString? && o.data.s != [])
      && (Render(d).ContentScreen? ==> Render(d).text == o.data.s)
      && (Render(d) == EmptyScreen <==> o.Response? && o.status == 200 && o.data == JString(""))
      && (Render(d).ErrorScreen? <==> !(o.Response? && o.status == 200 && o.data.JString?))
  {
    var d := Settle(DocState("", None, true), o);
    if o.Rejected? {
      assert FailureMessage(o.failure)[..|FailurePrefix|] == FailurePrefix || FailureMessage(o.failure) in {NotFoundMessage, TimeoutMessage};
      assert FailureMessage(o.failure) != [];
    }
  }

  /** A 404 wins over a timeout code, and a timeout over the generic message. */
  lemma FailurePrecedence(status: Option<int>, code: string, message: string)
    ensures status == Some(404) ==> FailureMessage(AxiosError(status, code, message)) == NotFoundMessage
    ensures status != Some(404) && code == "ECONNABORTED" ==> FailureMessage(AxiosError(status, code, message)) == TimeoutMessage
    ensures status != Some(404) && code != "ECONNABORTED" ==> FailureMessage(AxiosError(status, code, message)) == FailureMessage(OtherError(message))
  {
  }

  /** The documentation page. */
  class DocPage {
    var content: string
    var error: Option<string>
    var loading: bool

    function State(): DocState
      reads this
    {
      DocState(content, error, loading)
    }

    constructor Mount()
      ensures State() == DocState("", None, true)
    {
      content := "";
      error := None;
      loading := true;
    }

    /**
     * The mount effect: the settings are read from the store, the URL built,
     * and `get` (the HTTP client) answers for that URL. A URL that throws
     * (`typeError` is the engine's message) is caught like a failed request.
     */
    method FetchDocContent(storage: Storage, parse: string -> Option<Json>, parseUrl: string -> Option<UrlParts>,
                           get: string -> Outcome, typeError: string)
      modifies this
      ensures var url := DocUrl(StoredSettings(storage.entries, parse), parseUrl);
        State() == Settle(old(State()).(error := None),
                          if url.Some? then get(url.value) else Rejected(OtherError(typeError)))
    {
      loading := true;
      error := None;
      var url := DocUrl(StoredSettings(storage.entries, parse), parseUrl);
      if url.None? {
        error := Some(FailurePrefix + typeError);
        loading := false;
        return;
      }
      var response := get(url.value);
      if response.Rejected? {
        error := Some(FailureMessage(response.failure));
      } else if response.status == 200 && response.data.JString? {
        content := response.data.s;
      } else {
        error := Some(FormatMessage);
      }
      loading := false;
    }
  }
}
