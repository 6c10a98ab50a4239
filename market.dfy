/**
 * The template market: the catalog index fetched through the configured
 * proxy, a case-insensitive search over name, description and author, and
 * pagination with 10, 20 or 30 entries per page.
 */
module Market {
  import opened Wrappers
  import opened JsText
  import opened Json
  import opened LocalStorage
  import opened AppSettings

  /** One catalog entry of the index. */
  datatype App = App(name: string, description: string, variant: string, os: string,
                     version: string, release: string, contact: string, author: string)

  /** The market fetches the index only when settings exist and proxy, index and repository are all set. */
  predicate SettingsComplete(s: Json)
  {
    Truthy(s) && TruthyOpt(Get(s, ProxyField)) && TruthyOpt(Get(s, IndexField)) && TruthyOpt(Get(s, RepoField))
  }

  /** `proxy ? `${proxy}/${indexUrl}` : indexUrl`. */
  function IndexUrl(s: Json): string
  {
    var proxy := Get(s, ProxyField);
    if TruthyOpt(proxy) then ToText(proxy.value) + "/" + OptText(Get(s, IndexField))
    else OptText(Get(s, IndexField))
  }

  /** With complete string settings the index is always fetched through the proxy. */
  lemma IndexUrlProxied(proxy: string, index: string, repo: string, docBase: string)
    requires proxy != [] && index != [] && repo != []
    ensures SettingsComplete(Record(proxy, index, repo, docBase))
    ensures IndexUrl(Record(proxy, index, repo, docBase)) == proxy + "/" + index
  {
    var ms := Record(proxy, index, repo, docBase).members;
    assert ms[1..] == [(IndexField, JString(index)), (RepoField, JString(repo)), (DocBaseField, JString(docBase))];
    assert ms[1..][1..] == [(RepoField, JString(repo)), (DocBaseField, JString(docBase))];
    assert Lookup(ms, IndexField) == Lookup(ms[1..], IndexField);
    assert Lookup(ms, RepoField) == Lookup(ms[1..], RepoField) == Lookup(ms[1..][1..], RepoField);
  }

  /** Whether an entry matches a lower-cased query: its lower-cased name, description or author contains it. */
  predicate Matches(app: App, q: string)
  {
    Includes(LowerAscii(app.name), q) || Includes(LowerAscii(app.description), q) || Includes(LowerAscii(app.author), q)
  }

  /** The entries that match, in catalog order. */
  function Filter(apps: seq<App>, q: string): (r: seq<App>)
    ensures |r| <= |apps|
  {
    if apps == [] then []
    else if Matches(apps[0], q) then [apps[0]] + Filter(apps[1..], q)
    else Filter(apps[1..], q)
  }

  /**
   * The search effect's result: the whole catalog for a blank query,
   * otherwise the entries matching the lower-cased query (not trimmed).
   */
  function SearchResult(apps: seq<App>, query: string): seq<App>
  {
    if Trim(query) == [] then apps else Filter(apps, LowerAscii(query))
  }

  /** An entry is in the result exactly when it is in the catalog and matches. */
  lemma {:induction false} FilterMembers(apps: seq<App>, q: string, a: App)
    ensures a in Filter(apps, q) <==> a in apps && Matches(a, q)
  {
    if apps != [] {
      FilterMembers(apps[1..], q, a);
      assert a in apps <==> a == apps[0] || a in apps[1..];
    }
  }

  /** Filtering distributes over concatenation, so the result keeps the catalog order. */
  lemma {:induction false} FilterAppend(a: seq<App>, b: seq<App>, q: string)
    ensures Filter(a + b, q) == Filter(a, q) + Filter(b, q)
  {
    if a == [] {
      assert a + b == b;
    } else {
      assert (a + b)[0] == a[0];
      assert (a + b)[1..] == a[1..] + b;
      FilterAppend(a[1..], b, q);
    }
  }

  /** The empty query matches every entry. */
  lemma {:induction false} FilterEmptyQuery(apps: seq<App>)
    ensures Filter(apps, "") == apps
  {
    if apps != [] {
      IncludesIffOccurs(LowerAscii(apps[0].name), "");
      assert OccursAt(LowerAscii(apps[0].name), "", 0);
      FilterEmptyQuery(apps[1..]);
    }
  }

  lemma {:induction false} LowerAsciiIdempotent(s: string)
    ensures LowerAscii(LowerAscii(s)) == LowerAscii(s)
  {
  }

  lemma BlankLower(s: string)
    ensures IsBlank(LowerAscii(s)) <==> IsBlank(s)
  {
    var l := LowerAscii(s);
    assert forall i :: 0 <= i < |s| ==> (IsWhitespace(l[i]) <==> IsWhitespace(s[i])) by {
      forall i | 0 <= i < |s| ensures IsWhitespace(l[i]) <==> IsWhitespace(s[i]) {
        if 'A' <= s[i] <= 'Z' {
          assert 'a' <= l[i] <= 'z';
        }
      }
    }
  }

  /** The search is case-insensitive: lower-casing the query does not change the result. */
  lemma SearchCaseInsensitive(apps: seq<App>, query: string)
    ensures SearchResult(apps, LowerAscii(query)) == SearchResult(apps, query)
  {
    LowerAsciiIdempotent(query);
    BlankLower(query);
    TrimEmptyIffBlank(query);
    TrimEmptyIffBlank(LowerAscii(query));
  }

  /** The number of pages: `Math.ceil(n / perPage)`. */
  function TotalPages(n: nat, perPage: nat): nat
    requires perPage > 0
  {
    (n + perPage - 1) / perPage
  }

  /** The pages hold the list: no fewer than needed, no page wholly past the end, none at all for an empty list. */
  lemma TotalPagesBounds(n: nat, perPage: nat)
    requires perPage > 0
    ensures TotalPages(n, perPage) * perPage >= n
    ensures n > 0 ==> (TotalPages(n, perPage) - 1) * perPage < n
    ensures TotalPages(n, perPage) == 0 <==> n == 0
  {
    var t := TotalPages(n, perPage);
    var r := (n + perPage - 1) % perPage;
    assert t * perPage + r == n + perPage - 1;
    assert 0 <= r < perPage;
    if n > 0 {
      assert (t - 1) * perPage == t * perPage - perPage;
    }
  }

  /** `filtered.slice((page - 1) * perPage, (page - 1) * perPage + perPage)`. */
  function PageSlice(list: seq<App>, page: nat, perPage: nat): (r: seq<App>)
    requires page >= 1
    ensures |r| <= perPage
  {
    var start := (page - 1) * perPage;
    var end := start + perPage;
    list[Min(start, |list|)..Min(end, |list|)]
  }

  function Min(a: nat, b: nat): nat
  {
    if a <= b then a else b
  }

  /** The first `k` pages, one after the other. */
  function PagesUpTo(list: seq<App>, perPage: nat, k: nat): seq<App>
  {
    if k == 0 then [] else PagesUpTo(list, perPage, k - 1) + PageSlice(list, k, perPage)
  }

  lemma {:induction false} PagesUpToPrefix(list: seq<App>, perPage: nat, k: nat)
    ensures PagesUpTo(list, perPage, k) == list[..Min(k * perPage, |list|)]
  {
    if k > 0 {
      PagesUpToPrefix(list, perPage, k - 1);
      assert (k - 1) * perPage + perPage == k * perPage;
      var a := Min((k - 1) * perPage, |list|);
      var b := Min(k * perPage, |list|);
      assert list[..a] + list[a..b] == list[..b];
    }
  }

  /** Read one after the other, the pages give back the whole list, in order. */
  lemma PagesCoverList(list: seq<App>, perPage: nat)
    requires perPage > 0
    ensures PagesUpTo(list, perPage, TotalPages(|list|, perPage)) == list
  {
    TotalPagesBounds(|list|, perPage);
    PagesUpToPrefix(list, perPage, TotalPages(|list|, perPage));
  }

  /** A page the pagination can reach. */
  predicate PageInRange(page: nat, n: nat, perPage: nat)
    requires perPage > 0
  {
    1 <= page && (page == 1 || page <= TotalPages(n, perPage))
  }

  /** A reachable page of a non-empty list is never empty. */
  lemma PageInRangeNotEmpty(list: seq<App>, page: nat, perPage: nat)
    requires perPage > 0 && PageInRange(page, |list|, perPage) && list != []
    ensures PageSlice(list, page, perPage) != []
  {
    var t := TotalPages(|list|, perPage);
    TotalPagesBounds(|list|, perPage);
    if page > 1 {
      MulMono(page - 1, t - 1, perPage);
    }
    assert (page - 1) * perPage < |list|;
  }

  lemma {:induction false} MulMono(a: nat, b: nat, c: nat)
    requires a <= b
    ensures a * c <= b * c
  {
    if a < b {
      MulMono(a, b - 1, c);
      assert b * c == (b - 1) * c + c;
    }
  }

  predicate AllowedPerPage(n: nat)
  {
    n == 10 || n == 20 || n == 30
  }

  /**
   * The market page's state. `filtered` is always the search effect's
   * result for the current catalog and query.
   */
  class MarketView {
    var showConfigDialog: bool
    var apps: seq<App>
    var filtered: seq<App>
    var loading: bool
    var searchQuery: string
    var itemsPerPage: nat
    var currentPage: nat

    predicate Valid()
      reads this
    {
      AllowedPerPage(itemsPerPage) && currentPage >= 1
      && filtered == SearchResult(apps, searchQuery)
      && (loading ==> apps == [] && currentPage == 1)
    }

    /** The reachable-page property that the pagination is meant to keep. */
    predicate PageOk()
      reads this
      requires AllowedPerPage(itemsPerPage)
    {
      PageInRange(currentPage, |filtered|, itemsPerPage)
    }

    /** The entries on the visible page. */
    function CurrentApps(): seq<App>
      reads this
      requires currentPage >= 1
    {
      PageSlice(filtered, currentPage, itemsPerPage)
    }

    /** The page buttons are shown only when there is more than one page. */
    predicate PaginationShown()
      reads this
      requires AllowedPerPage(itemsPerPage)
    {
      TotalPages(|filtered|, itemsPerPage) > 1
    }

    constructor ()
      ensures Valid() && PageOk()
      ensures !showConfigDialog && apps == [] && loading && searchQuery == "" && itemsPerPage == 10 && currentPage == 1
    {
      showConfigDialog := false;
      apps := [];
      filtered := [];
      loading := true;
      searchQuery := "";
      itemsPerPage := 10;
      currentPage := 1;
    }

    /**
     * The mount effect: with incomplete settings the configuration dialog
     * opens and the page stays loading; otherwise the index is requested
     * from the returned URL.
     */
    method MountEffect(storage: Storage, parse: string -> Option<Json>) returns (request: Option<string>)
      requires Valid()
      modifies this`showConfigDialog
      ensures Valid()
      ensures var s := StoredSettings(storage.entries, parse);
        if SettingsComplete(s) then request == Some(IndexUrl(s)) && showConfigDialog == old(showConfigDialog)
        else request == None && showConfigDialog
    {
      var s := StoredSettings(storage.entries, parse);
      if !SettingsComplete(s) {
        showConfigDialog := true;
        request := None;
      } else {
        request := Some(IndexUrl(s));
      }
    }

    /**
     * The index request completes: the catalog replaces the empty one and
     * the search effect runs on it; a failure opens the configuration
     * dialog. Loading is over either way.
     */
    method IndexLoaded(response: Option<seq<App>>)
      requires Valid() && loading
      modifies this
      ensures Valid() && PageOk() && !loading
      ensures searchQuery == old(searchQuery) && itemsPerPage == old(itemsPerPage) && currentPage == 1
      ensures response.Some? ==> apps == response.value && showConfigDialog == old(showConfigDialog)
      ensures response.None? ==> apps == [] && showConfigDialog
    {
      if response.Some? {
        apps := response.value;
        filtered := response.value;
        ApplySearch();
      } else {
        showConfigDialog := true;
      }
      loading := false;
    }

    /** The search effect: the result for the current catalog and query; a non-blank query goes back to page 1. */
    method ApplySearch()
      modifies this`filtered, this`currentPage
      ensures filtered == SearchResult(apps, searchQuery)
      ensures currentPage == if Trim(searchQuery) == [] then old(currentPage) else 1
    {
      if Trim(searchQuery) == [] {
        filtered := apps;
        return;
      }
      var query := LowerAscii(searchQuery);
      filtered := Filter(apps, query);
      currentPage := 1;
    }

    /** Typing in the search box; the effect runs only when the query changes. */
    method SetSearchQuery(q: string)
      requires Valid()
      modifies this`searchQuery, this`filtered, this`currentPage
      ensures Valid() && searchQuery == q
      ensures q != old(searchQuery) && Trim(q) != [] ==> currentPage == 1
      ensures Trim(q) == [] || q == old(searchQuery) ==> currentPage == old(currentPage)
      ensures old(PageOk()) ==> PageOk()
    {
      if q != searchQuery {
        searchQuery := q;
        ApplySearch();
      }
    }

    /** A page button: pages outside 1..totalPages are ignored. */
    method HandlePageChange(page: int)
      requires Valid()
      modifies this`currentPage
      ensures Valid()
      ensures if 1 <= page <= TotalPages(|filtered|, itemsPerPage) then currentPage == page else currentPage == old(currentPage)
      ensures old(PageOk()) ==> PageOk()
    {
      if page < 1 || page > TotalPages(|filtered|, itemsPerPage) {
        return;
      }
      currentPage := page;
    }

    /** The per-page menu as written: the current page is kept, whatever the new page count. */
    method SetItemsPerPageAsWritten(n: nat)
      requires Valid() && AllowedPerPage(n)
      modifies this`itemsPerPage
      ensures Valid() && itemsPerPage == n && currentPage == old(currentPage)
    {
      itemsPerPage := n;
    }

    /** The per-page menu, corrected: a new page size starts again from the first page. */
    method SetItemsPerPage(n: nat)
      requires Valid() && AllowedPerPage(n)
      modifies this`itemsPerPage, this`currentPage
      ensures Valid() && PageOk() && itemsPerPage == n && currentPage == 1
    {
      itemsPerPage := n;
      currentPage := 1;
    }
  }

  /**
   * The stale page: thirty entries at ten per page, on page three; after
   * switching to thirty per page there is one page, page three shows nothing,
   * and the page buttons are hidden.
   */
  lemma StalePageAfterPerPageChange(list: seq<App>)
    requires |list| == 30
    ensures PageInRange(3, |list|, 10) && PageSlice(list, 3, 10) == list[20..]
    ensures !PageInRange(3, |list|, 30) && PageSlice(list, 3, 30) == [] && TotalPages(|list|, 30) == 1
  {
  }

  /** The same in the running page: the as-written menu leaves an empty page with no way back through the page buttons. */
  method PerPageChangeAsWrittenEmptiesPage(view: MarketView)
    requires view.Valid() && |view.filtered| == 30 && view.itemsPerPage == 10 && view.currentPage == 3
    modifies view`itemsPerPage, view`currentPage
    ensures view.Valid()
    ensures view.CurrentApps() == [] && !view.PaginationShown()
  {
    StalePageAfterPerPageChange(view.filtered);
    view.SetItemsPerPageAsWritten(30);
  }

  /** The corrected menu never leaves the visible page empty while there are results. */
  method PerPageChangeKeepsPageFilled(view: MarketView, n: nat)
    requires view.Valid() && AllowedPerPage(n) && view.filtered != []
    modifies view`itemsPerPage, view`currentPage
    ensures view.Valid()
    ensures view.CurrentApps() != []
  {
    view.SetItemsPerPage(n);
    PageInRangeNotEmpty(view.filtered, view.currentPage, view.itemsPerPage);
  }
}
