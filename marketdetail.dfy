/**
 * The detail page of one catalog entry, addressed by the route parameters
 * os, version and variant: the entry is looked up in the freshly fetched
 * index, its README is fetched through the proxy, and the download button
 * fetches the entry's template script or, failing that, opens its URL.
 */
module MarketDetail {
  import opened Wrappers
  import opened Json
  import opened LocalStorage
  import opened AppSettings
  import opened Market

  const NoSettingsMessage: string := "请先配置设置"
  const NotFoundMessage: string := "未找到该应用"
  const LoadFailedMessage: string := "加载失败，请检查网络和配置"
  const NoDocMessage: string := "*暂无文档*"
  const MissingAppMessage: string := "应用不存在"
  const HubUrl: string := "https://codespace.lantian.pro/LantianCloud/BrickHub"
  const TemplateName: string := "template.sh"

  /** Whether an entry sits at the route `os/version/variant`. */
  predicate AtRoute(a: App, os: string, version: string, variant: string)
  {
    a.os == os && a.version == version && a.variant == variant
  }

  /** `apps.find(...)`: the first entry at the route. */
  function FindApp(apps: seq<App>, os: string, version: string, variant: string): Option<App>
  {
    if apps == [] then None
    else if AtRoute(apps[0], os, version, variant) then Some(apps[0])
    else FindApp(apps[1..], os, version, variant)
  }

  /** The lookup finds an entry exactly when one is at the route, and it is the first such entry. */
  lemma {:induction false} FindAppFirst(apps: seq<App>, os: string, version: string, variant: string)
    ensures FindApp(apps, os, version, variant).None? <==> forall i :: 0 <= i < |apps| ==> !AtRoute(apps[i], os, version, variant)
    ensures FindApp(apps, os, version, variant).Some? ==>
      exists i :: 0 <= i < |apps| && apps[i] == FindApp(apps, os, version, variant).value
        && AtRoute(apps[i], os, version, variant)
        && forall j :: 0 <= j < i ==> !AtRoute(apps[j], os, version, variant)
  {
    if apps != [] && !AtRoute(apps[0], os, version, variant) {
      FindAppFirst(apps[1..], os, version, variant);
      if FindApp(apps[1..], os, version, variant).Some? {
        var i :| 0 <= i < |apps[1..]| && apps[1..][i] == FindApp(apps[1..], os, version, variant).value
          && AtRoute(apps[1..][i], os, version, variant)
          && forall j :: 0 <= j < i ==> !AtRoute(apps[1..][j], os, version, variant);
        assert apps[i + 1] == apps[1..][i];
        assert forall j :: 0 <= j < i + 1 ==> !AtRoute(apps[j], os, version, variant) by {
          forall j | 0 <= j < i + 1 ensures !AtRoute(apps[j], os, version, variant) {
            if j > 0 {
              assert apps[j] == apps[1..][j - 1];
            }
          }
        }
      } else {
        forall i | 0 <= i < |apps| ensures !AtRoute(apps[i], os, version, variant) {
          if i > 0 {
            assert apps[i] == apps[1..][i - 1];
          }
        }
      }
    }
  }

  /** Clicking a market card leads to a page that finds an entry at that card's route. */
  lemma CardRouteFinds(apps: seq<App>, a: App)
    requires a in apps
    ensures FindApp(apps, a.os, a.version, a.variant).Some?
    ensures AtRoute(FindApp(apps, a.os, a.version, a.variant).value, a.os, a.version, a.variant)
  {
    var k :| 0 <= k < |apps| && apps[k] == a;
    FindAppFirst(apps, a.os, a.version, a.variant);
    if FindApp(apps, a.os, a.version, a.variant).Some? {
      var i :| 0 <= i < |apps| && apps[i] == FindApp(apps, a.os, a.version, a.variant).value
        && AtRoute(apps[i], a.os, a.version, a.variant);
    }
  }

  /** The path of an entry's file in the catalog repository. */
  function EntryPath(os: string, version: string, variant: string, file: string): string
  {
    "/raw/branch/main/index/" + os + "/" + version + "/" + variant + "/" + file
  }

  /** The README URL: always `${proxy}/${repoUrl}/...`, an unset field printing as `undefined`. */
  function ReadmeUrl(s: Json, os: string, version: string, variant: string): string
  {
    OptText(Get(s, ProxyField)) + "/" + OptText(Get(s, RepoField)) + EntryPath(os, version, variant, "README.md")
  }

  /**
   * The two requests of the page. The README always goes through the proxy
   * field, even an empty one, which leaves a URL starting with `/`; the
   * index skips an empty proxy.
   */
  lemma RequestUrls(s: Json, p: string, r: string, os: string, version: string, variant: string)
    requires Get(s, ProxyField) == Some(JString(p)) && Get(s, RepoField) == Some(JString(r))
    ensures ReadmeUrl(s, os, version, variant) == p + "/" + r + EntryPath(os, version, variant, "README.md")
    ensures p == [] ==> ReadmeUrl(s, os, version, variant)[0] == '/' && IndexUrl(s) == OptText(Get(s, IndexField))
    ensures p != [] ==> IndexUrl(s) == p + "/" + OptText(Get(s, IndexField))
  {
    if p == [] {
      assert ReadmeUrl(s, os, version, variant) == "/" + (r + EntryPath(os, version, variant, "README.md"));
    }
  }

  /** The page's state: the entry, the README text, the loading flag and the error text. */
  datatype Detail = Detail(app: Option<App>, markdown: string, loading: bool, error: string)

  const InitialDetail: Detail := Detail(None, "", true, "")

  /** The entry's card is shown once loading is over, when no error is set and an entry was found. */
  predicate ShowsEntry(d: Detail)
  {
    !d.loading && d.error == [] && d.app.Some?
  }

  /** The error card's text: the error, or a fixed text when there is no error but no entry either. */
  function ErrorText(d: Detail): string
  {
    if d.error != [] then d.error else MissingAppMessage
  }

  /**
   * The fetch effect as written, from the state `prev` it starts in.
   * `getIndex` and `getReadme` answer a GET of a URL (`None` when the
   * request fails); the index is requested at `IndexUrl`, the README of the
   * entry found at `ReadmeUrl`. No branch clears an error left by an
   * earlier run.
   */
  function FetchAsWritten(prev: Detail, settings: Json, os: string, version: string, variant: string,
                          getIndex: string -> Option<seq<App>>, getReadme: string -> Option<string>): Detail
  {
    if !Truthy(settings) then prev.(error := NoSettingsMessage, loading := false)
    else
      var index := getIndex(IndexUrl(settings));
      if index.None? then prev.(error := LoadFailedMessage, loading := false)
      else match FindApp(index.value, os, version, variant)
        case None => prev.(error := NotFoundMessage, app := None, loading := false)
        case Some(a) =>
          var readme := getReadme(ReadmeUrl(settings, os, version, variant));
          prev.(app := Some(a), markdown := if readme.Some? then readme.value else NoDocMessage, loading := false)
  }

  /** The fetch effect, corrected: it starts by clearing the error of an earlier run. */
  function Fetch(prev: Detail, settings: Json, os: string, version: string, variant: string,
                 getIndex: string -> Option<seq<App>>, getReadme: string -> Option<string>): Detail
  {
    FetchAsWritten(prev.(error := ""), settings, os, version, variant, getIndex, getReadme)
  }

  /**
   * After the corrected effect, the entry is shown exactly when settings
   * exist, the index fetched from its URL holds an entry at the route; it
   * is that entry, with the README fetched from its URL or the "no
   * document" text.
   */
  lemma FetchShowsEntryIff(prev: Detail, settings: Json, os: string, version: string, variant: string,
                           getIndex: string -> Option<seq<App>>, getReadme: string -> Option<string>)
    ensures var d := Fetch(prev, settings, os, version, variant, getIndex, getReadme);
      var index := getIndex(IndexUrl(settings));
      var readme := getReadme(ReadmeUrl(settings, os, version, variant));
      && !d.loading
      && (ShowsEntry(d) <==> Truthy(settings) && index.Some? && FindApp(index.value, os, version, variant).Some?)
      && (ShowsEntry(d) ==> d.app == FindApp(index.value, os, version, variant)
                            && d.markdown == (if readme.Some? then readme.value else NoDocMessage))
  {
  }

  /** The error card names the first step that failed. */
  lemma FetchErrorText(prev: Detail, settings: Json, os: string, version: string, variant: string,
                       getIndex: string -> Option<seq<App>>, getReadme: string -> Option<string>)
    ensures var d := Fetch(prev, settings, os, version, variant, getIndex, getReadme);
      var index := getIndex(IndexUrl(settings));
      && (!Truthy(settings) ==> ErrorText(d) == NoSettingsMessage)
      && (Truthy(settings) && index.None? ==> ErrorText(d) == LoadFailedMessage)
      && (Truthy(settings) && index.Some? && FindApp(index.value, os, version, variant).None? ==>
            ErrorText(d) == NotFoundMessage && d.app.None?)
  {
  }

  /**
   * The stale error: a route with no entry, then, with the page still
   * mounted, a route whose entry exists. As written the page keeps showing
   * the error card; corrected, it shows the entry.
   */
  lemma StaleErrorAsWritten(settings: Json, index: seq<App>, a: App, os: string, version: string, variant: string,
                            getIndex: string -> Option<seq<App>>, getReadme: string -> Option<string>)
    requires Truthy(settings) && a in index && getIndex(IndexUrl(settings)) == Some(index)
    requires FindApp(index, os, version, variant).None?
    ensures var first := FetchAsWritten(InitialDetail, settings, os, version, variant, getIndex, getReadme);
      var second := FetchAsWritten(first, settings, a.os, a.version, a.variant, getIndex, getReadme);
      first.error == NotFoundMessage && !ShowsEntry(second) && ErrorText(second) == NotFoundMessage
    ensures var first := Fetch(InitialDetail, settings, os, version, variant, getIndex, getReadme);
      var second := Fetch(first, settings, a.os, a.version, a.variant, getIndex, getReadme);
      first.error == NotFoundMessage && ShowsEntry(second)
  {
    CardRouteFinds(index, a);
  }

  /** The detail page. */
  class DetailView {
    const os: string
    const version: string
    const variant: string
    var state: Detail

    constructor Mount(os: string, version: string, variant: string)
      ensures this.os == os && this.version == version && this.variant == variant
      ensures state == InitialDetail
    {
      this.os := os;
      this.version := version;
      this.variant := variant;
      state := InitialDetail;
    }

    /**
     * One run of the fetch effect as written, with the settings read from
     * the store at that moment; it sets the loading flag and leaves the
     * error of an earlier run in place.
     */
    method FetchAppDetails(storage: Storage, parse: string -> Option<Json>,
                           getIndex: string -> Option<seq<App>>, getReadme: string -> Option<string>)
      modifies this`state
      ensures state == FetchAsWritten(old(state).(loading := true), StoredSettings(storage.entries, parse),
                                      os, version, variant, getIndex, getReadme)
    {
      state := state.(loading := true);
      var settings := StoredSettings(storage.entries, parse);
      if !Truthy(settings) {
        state := state.(error := NoSettingsMessage, loading := false);
        return;
      }
      var index := getIndex(IndexUrl(settings));
      if index.None? {
        state := state.(error := LoadFailedMessage, loading := false);
        return;
      }
      var found := FindApp(index.value, os, version, variant);
      if found.None? {
        state := state.(error := NotFoundMessage, app := None);
      } else {
        state := state.(app := found);
        var readme := getReadme(ReadmeUrl(settings, os, version, variant));
        if readme.Some? {
          state := state.(markdown := readme.value);
        } else {
          state := state.(markdown := NoDocMessage);
        }
      }
      state := state.(loading := false);
    }

    /** One run of the corrected effect: the error is cleared first. */
    method FetchAppDetailsCorrected(storage: Storage, parse: string -> Option<Json>,
                                    getIndex: string -> Option<seq<App>>, getReadme: string -> Option<string>)
      modifies this`state
      ensures state == Fetch(old(state), StoredSettings(storage.entries, parse), os, version, variant, getIndex, getReadme)
    {
      state := state.(error := "");
      FetchAppDetails(storage, parse, getIndex, getReadme);
    }
  }

  /** The template URL: through the proxy when one is set, from the configured repository or the hub. */
  function DownloadUrl(s: Json, a: App): string
  {
    var proxy := Get(s, ProxyField);
    var repo := if TruthyOpt(Get(s, RepoField)) then ToText(Get(s, RepoField).value) else HubUrl;
    var tail := repo + EntryPath(a.os, a.version, a.variant, TemplateName);
    if TruthyOpt(proxy) then ToText(proxy.value) + "/" + tail else tail
  }

  /** What the download button does. */
  datatype DownloadAction = NoAction | SaveFile(url: string, name: string) | OpenWindow(url: string)

  /**
   * The download handler, given the settings read at click time and whether
   * the fetch of the template succeeds: no entry, nothing; no settings, the
   * hub URL opened directly; otherwise the fetched file saved as
   * `template.sh`, or the same URL opened when the fetch fails.
   */
  function Download(app: Option<App>, s: Json, fetchOk: bool): DownloadAction
  {
    if app.None? then NoAction
    else if !Truthy(s) then OpenWindow(HubUrl + EntryPath(app.value.os, app.value.version, app.value.variant, TemplateName))
    else if fetchOk then SaveFile(DownloadUrl(s, app.value), TemplateName)
    else OpenWindow(DownloadUrl(s, app.value))
  }

  /** A text ending in `p` still ends in `p` after something is put in front. */
  lemma SuffixAfterPrefix(x: string, y: string, p: string)
    requires |y| >= |p| && y[|y| - |p|..] == p
    ensures |x + y| >= |p| && (x + y)[|x + y| - |p|..] == p
  {
    assert (x + y)[|x + y| - |p|..] == y[|y| - |p|..];
  }

  /** The template URL ends with the entry's path, and starts with the proxy and a slash when one is set. */
  lemma DownloadUrlShape(s: Json, a: App)
    ensures var p := EntryPath(a.os, a.version, a.variant, TemplateName);
      var u := DownloadUrl(s, a);
      |u| >= |p| && u[|u| - |p|..] == p
    ensures TruthyOpt(Get(s, ProxyField)) ==>
      var pre := ToText(Get(s, ProxyField).value) + "/";
      |DownloadUrl(s, a)| >= |pre| && DownloadUrl(s, a)[..|pre|] == pre
  {
    var p := EntryPath(a.os, a.version, a.variant, TemplateName);
    var repo := if TruthyOpt(Get(s, RepoField)) then ToText(Get(s, RepoField).value) else HubUrl;
    var tail := repo + p;
    SuffixAfterPrefix(repo, p, p);
    if TruthyOpt(Get(s, ProxyField)) {
      var pre := ToText(Get(s, ProxyField).value) + "/";
      assert DownloadUrl(s, a) == pre + tail;
      SuffixAfterPrefix(pre, tail, p);
    }
  }

  /**
   * Every download addresses the entry's own template script; with settings
   * the fallback opens exactly the URL the fetch used, and with a proxy the
   * URL goes through it.
   */
  lemma DownloadTargetsEntry(app: Option<App>, s: Json, fetchOk: bool)
    ensures var d := Download(app, s, fetchOk);
      && (d == NoAction <==> app.None?)
      && (app.Some? ==> var p := EntryPath(app.value.os, app.value.version, app.value.variant, TemplateName);
            |d.url| >= |p| && d.url[|d.url| - |p|..] == p)
      && (app.Some? && Truthy(s) ==> Download(app, s, true).url == Download(app, s, false).url)
      && (app.Some? && Truthy(s) ==> Download(app, s, true) == SaveFile(DownloadUrl(s, app.value), TemplateName))
      && (app.Some? && TruthyOpt(Get(s, ProxyField)) ==>
            var pre := ToText(Get(s, ProxyField).value) + "/";
            |DownloadUrl(s, app.value)| >= |pre| && DownloadUrl(s, app.value)[..|pre|] == pre)
  {
    if app.Some? {
      var a := app.value;
      var p := EntryPath(a.os, a.version, a.variant, TemplateName);
      DownloadUrlShape(s, a);
      SuffixAfterPrefix(HubUrl, p, p);
    }
  }
}
