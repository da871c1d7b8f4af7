/** The settings screen's view model: choosing a search engine by its URL and
    forwarding the home-page properties. The settings store is outside the
    model; each operation gives back the call it makes on the store. The list
    of search-engine URLs is a parameter; its last entry stands for the
    user's own engine. */
module Settings {
  import opened Strings

  /** The calls made on the settings store. `customUrl` is None where the
      caller leaves that argument at its default. */
  datatype SettingsCall<M, L> =
    | SetSearchEngine(index: int, customUrl: Option<string>)
    | SetHomePageProperties(mode: M, homeUrl: Option<string>, linksMode: L)

  /** The engine URL a search-engine call selects: a predefined entry, or the
      custom URL it carries. */
  function SelectedUrl<M, L>(engines: seq<string>, call: SettingsCall<M, L>): (r: Option<string>)
    ensures call.SetHomePageProperties? ==> r.None?
    ensures call.SetSearchEngine? && call.customUrl.Some? ==> r == call.customUrl
    ensures call.SetSearchEngine? && call.customUrl.None? ==>
              (r.Some? <==> 0 <= call.index < |engines|) && (r.Some? ==> r.value in engines)
  {
    match call
    case SetSearchEngine(i, custom) =>
      if custom.Some? then custom
      else if 0 <= i < |engines| then Some(engines[i])
      else None
    case SetHomePageProperties(_, _, _) => None
  }

  /** The URL is one of the predefined engines: every entry but the last. */
  predicate Predefined(engines: seq<string>, url: string) {
    exists k :: 0 <= k < |engines| - 1 && engines[k] == url
  }

  /** `setSearchEngineURL(url)`: a URL found among the predefined engines
      (every entry but the last) selects the first entry equal to it; any
      other URL, the last entry's own URL included, selects the last index
      as a custom engine with that URL. */
  function SearchEngineCall<M, L>(engines: seq<string>, url: string): (c: SettingsCall<M, L>)
    ensures c.SetSearchEngine?
    ensures Predefined(engines, url) <==> c.customUrl.None?
    ensures c.customUrl.None? ==> 0 <= c.index < |engines| - 1 && engines[c.index] == url
                                  && url !in engines[..c.index]
    ensures c.customUrl.Some? ==> c.index == |engines| - 1 && c.customUrl.value == url
  {
    var index := IndexOf(engines, url);
    if index >= 0 && index < |engines| - 1 then
      SetSearchEngine(index, None)
    else
      SetSearchEngine(|engines| - 1, Some(url))
  }

  /** Whatever URL is chosen, the call selects exactly that URL. */
  lemma SearchEngineCallSelectsUrl<M, L>(engines: seq<string>, url: string)
    ensures SelectedUrl(engines, SearchEngineCall<M, L>(engines, url)) == Some(url)
  {
    var c := SearchEngineCall<M, L>(engines, url);
    if c.customUrl.None? {
      assert 0 <= c.index < |engines| && engines[c.index] == url;
    }
  }

  /** Choosing the URL of the last (custom) entry stores it as a custom URL
      rather than selecting the entry. */
  lemma LastEntryIsCustom<M, L>(engines: seq<string>)
    requires |engines| > 0 && !Predefined(engines, engines[|engines| - 1])
    ensures SearchEngineCall<M, L>(engines, engines[|engines| - 1])
            == SetSearchEngine(|engines| - 1, Some(engines[|engines| - 1]))
  {
  }

  /** `setHomePageProperties`: the three properties go to the store as
      given, in the same roles. */
  function HomePagePropertiesCall<M, L>(mode: M, homeUrl: Option<string>, linksMode: L): (c: SettingsCall<M, L>)
    ensures c.SetHomePageProperties? && c.mode == mode && c.homeUrl == homeUrl && c.linksMode == linksMode
    ensures forall engines :: SelectedUrl(engines, c).None?
  {
    SetHomePageProperties(mode, homeUrl, linksMode)
  }
}
