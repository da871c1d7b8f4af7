/** The process-wide engine-provider registry: an ordered registry keyed by
    provider name, a one-shot bootstrap, and the single selected provider. */
module EngineFactory {
  import opened Strings

  /** A registered engine backend. The callback object is represented by what
      the factory observes of it: the version string it reports. */
  datatype Provider = Provider(name: string, versionString: string)

  datatype Failure =
    | NoProviders          // IllegalStateException: nothing registered after bootstrap
    | NotInitialized       // IllegalStateException("WebEngineFactory not initialized")
    | ProviderInitFailed   // the selected provider's own initialize threw

  datatype Outcome = Done | Failed(failure: Failure)

  /** An engine handed out by `createWebEngine`: made by the named provider for the tab. */
  datatype Engine = Engine(providerName: string, tabId: nat)

  function Names(entries: seq<Provider>): (r: seq<string>)
    ensures |r| == |entries| && forall i :: 0 <= i < |entries| ==> r[i] == entries[i].name
  {
    if entries == [] then [] else [entries[0].name] + Names(entries[1..])
  }

  /** No two registry entries share a name (the map's keys). */
  ghost predicate UniqueNames(entries: seq<Provider>) {
    forall i, j :: 0 <= i < j < |entries| ==> entries[i].name != entries[j].name
  }

  /** `LinkedHashMap.put`: an existing key keeps its position and gets the new
      value; a new key is appended, so insertion order is registration order. */
  function Put(entries: seq<Provider>, p: Provider): (r: seq<Provider>)
    ensures p in r
    ensures p.name !in Names(entries) ==> r == entries + [p]
    ensures p.name in Names(entries) ==> |r| == |entries|
  {
    var i := IndexOf(Names(entries), p.name);
    if i == -1 then entries + [p]
    else
      var r := entries[i := p];
      assert r[i] == p;
      r
  }

  /** `engineProviders[name]`. */
  function Lookup(entries: seq<Provider>, name: string): (r: Option<Provider>)
    ensures r.Some? ==> r.value in entries && r.value.name == name
    ensures r.None? <==> name !in Names(entries)
  {
    var i := IndexOf(Names(entries), name);
    if i == -1 then None else Some(entries[i])
  }

  /** Registering a name already present replaces that entry in place and does
      not grow the registry. */
  lemma PutExisting(entries: seq<Provider>, p: Provider)
    requires p.name in Names(entries)
    ensures |Put(entries, p)| == |entries|
    ensures Names(Put(entries, p)) == Names(entries)
    ensures Lookup(Put(entries, p), p.name) == Some(p)
  {
    var i := IndexOf(Names(entries), p.name);
    var r := Put(entries, p);
    assert Names(r) == Names(entries);
  }

  /** Registering a new name appends it after every earlier registration. */
  lemma PutNew(entries: seq<Provider>, p: Provider)
    requires p.name !in Names(entries)
    ensures Put(entries, p) == entries + [p]
    ensures Names(Put(entries, p)) == Names(entries) + [p.name]
  {
    assert Names(entries + [p]) == Names(entries) + [p.name];
  }

  /** Registration keeps the keys unique and only ever changes the entry for
      the registered name. */
  lemma PutKeepsOthers(entries: seq<Provider>, p: Provider, other: string)
    requires UniqueNames(entries)
    requires other != p.name
    ensures UniqueNames(Put(entries, p))
    ensures Lookup(Put(entries, p), other) == Lookup(entries, other)
  {
    var r := Put(entries, p);
    var i := IndexOf(Names(entries), p.name);
    var k := IndexOf(Names(entries), other);
    if i == -1 {
      PutNew(entries, p);
      assert Names(r)[..|entries|] == Names(entries);
      if k == -1 {
        assert other !in Names(r);
      } else {
        assert IndexOf(Names(r), other) == k;
      }
    } else {
      assert Names(r) == Names(entries);
    }
  }

  /** The provider `initialize` settles on: the one named in the settings if
      registered, otherwise the first registered one (a fallback); nothing when
      the registry is empty. */
  function SelectProvider(entries: seq<Provider>, settingsName: string): (r: Option<(Provider, bool)>)
    ensures r.None? <==> entries == []
    ensures r.Some? && settingsName in Names(entries) ==>
              r.value.0.name == settingsName && r.value.0 in entries && !r.value.1
    ensures r.Some? && settingsName !in Names(entries) ==> r.value == (entries[0], true)
  {
    if entries == [] then None
    else match Lookup(entries, settingsName)
      case Some(p) => Some((p, false))
      case None => Some((entries[0], true))
  }

  class WebEngineFactory {
    var providers: seq<Provider>
    var initializedProvider: Option<Provider>
    var attemptedBootstrap: bool
    /** Arguments of every `settingsManager.setWebEngine` request, in order. */
    var setWebEngineRequests: seq<int>
    /** Theme values forwarded to the selected provider, in order. */
    var themeDeliveries: seq<(string, int)>
    /** Providers asked to clear their cache, in order. */
    var cacheClears: seq<string>

    ghost predicate Valid()
      reads this
    {
      UniqueNames(providers)
    }

    constructor ()
      ensures Valid()
      ensures providers == [] && initializedProvider == None && !attemptedBootstrap
      ensures setWebEngineRequests == [] && themeDeliveries == [] && cacheClears == []
    {
      providers := [];
      initializedProvider := None;
      attemptedBootstrap := false;
      setWebEngineRequests := [];
      themeDeliveries := [];
      cacheClears := [];
    }

    function IsInitialized(): (r: bool)
      reads this
    {
      initializedProvider.Some?
    }

    method RegisterProvider(p: Provider) returns (replaced: bool)
      requires Valid()
      modifies this`providers
      ensures Valid()
      ensures providers == Put(old(providers), p)
      ensures replaced <==> p.name in Names(old(providers))
      ensures replaced ==> |providers| == |old(providers)|
      ensures !replaced ==> providers == old(providers) + [p]
    {
      replaced := Lookup(providers, p.name).Some?;
      if replaced {
        PutExisting(providers, p);
      } else {
        PutNew(providers, p);
      }
      ghost var before := providers;
      providers := Put(providers, p);
      forall i, j | 0 <= i < j < |providers| ensures providers[i].name != providers[j].name {
        PutKeepsOthers(before, p, if p.name == "" then "x" else "");
      }
    }

    /** The reflection bootstrap. `webViewInit` and `geckoInit` are what the two
        initializer classes register when they are present (None: the class is
        missing or its `create` failed, which is logged and ignored). */
    method EnsureProvidersRegistered(webViewInit: Option<Provider>, geckoInit: Option<Provider>)
      returns (ran: bool)
      requires Valid()
      modifies this`providers, this`attemptedBootstrap
      ensures Valid()
      ensures ran <==> old(providers) == [] && !old(attemptedBootstrap)
      ensures ran ==> attemptedBootstrap
      ensures ran ==> providers == Bootstrapped(webViewInit, geckoInit)
      ensures !ran ==> providers == old(providers) && attemptedBootstrap == old(attemptedBootstrap)
    {
      ran := false;
      if providers != [] { return; }
      if attemptedBootstrap { return; }
      attemptedBootstrap := true;
      ran := true;
      if webViewInit.Some? {
        var _ := RegisterProvider(webViewInit.value);
      }
      if geckoInit.Some? {
        var _ := RegisterProvider(geckoInit.value);
      }
    }

    /** `initialize(context, container, settingsManager)`. `supportedEngines` is
        `AppSettings.SupportedWebEngines`; `providerInitOk` says whether the
        chosen provider's own initialize returned normally. */
    method Initialize(settingsName: string, webViewInit: Option<Provider>, geckoInit: Option<Provider>,
                      supportedEngines: seq<string>, providerInitOk: bool)
      returns (out: Outcome)
      requires Valid()
      modifies this
      ensures Valid()
      ensures themeDeliveries == old(themeDeliveries) && cacheClears == old(cacheClears)
      ensures providers == (if old(providers) == [] && !old(attemptedBootstrap)
                            then Bootstrapped(webViewInit, geckoInit) else old(providers))
      ensures attemptedBootstrap == (old(attemptedBootstrap) || old(providers) == [])
      ensures providers == [] ==>
                out == Failed(NoProviders) && initializedProvider == old(initializedProvider)
                && setWebEngineRequests == old(setWebEngineRequests)
      ensures providers != [] ==>
                var (p, fallback) := SelectProvider(providers, settingsName).value;
                && setWebEngineRequests == old(setWebEngineRequests)
                     + (if fallback then [IndexOf(supportedEngines, p.name)] else [])
                && (providerInitOk ==> out == Done && initializedProvider == Some(p))
                && (!providerInitOk ==> out == Failed(ProviderInitFailed)
                                         && initializedProvider == old(initializedProvider))
    {
      var _ := EnsureProvidersRegistered(webViewInit, geckoInit);
      if providers == [] {
        return Failed(NoProviders);
      }
      var provider := Lookup(providers, settingsName);
      if provider.None? {
        provider := Some(providers[0]);
        // runCatching: a failing setWebEngine is swallowed; the request is still made
        setWebEngineRequests := setWebEngineRequests + [IndexOf(supportedEngines, provider.value.name)];
      }
      if !providerInitOk {
        return Failed(ProviderInitFailed);
      }
      initializedProvider := provider;
      out := Done;
    }

    method CreateWebEngine(tabId: nat) returns (r: Result)
      ensures initializedProvider.None? <==> r.Err?
      ensures initializedProvider.None? ==> r == Err(NotInitialized)
      ensures r.Ok? ==> r.engine == Engine(initializedProvider.value.name, tabId)
    {
      if initializedProvider.None? {
        return Err(NotInitialized);
      }
      r := Ok(Engine(initializedProvider.value.name, tabId));
    }

    method ClearCache() returns (out: Outcome)
      modifies this`cacheClears
      ensures initializedProvider.None? ==> out == Failed(NotInitialized) && cacheClears == old(cacheClears)
      ensures initializedProvider.Some? ==>
                out == Done && cacheClears == old(cacheClears) + [initializedProvider.value.name]
    {
      if initializedProvider.None? {
        return Failed(NotInitialized);
      }
      cacheClears := cacheClears + [initializedProvider.value.name];
      out := Done;
    }

    method OnThemeSettingUpdated(theme: int)
      modifies this`themeDeliveries
      ensures initializedProvider.None? ==> themeDeliveries == old(themeDeliveries)
      ensures initializedProvider.Some? ==>
                themeDeliveries == old(themeDeliveries) + [(initializedProvider.value.name, theme)]
    {
      if initializedProvider.Some? {
        themeDeliveries := themeDeliveries + [(initializedProvider.value.name, theme)];
      }
    }

    function GetWebEngineVersionString(): (r: string)
      reads this
      ensures !IsInitialized() ==> r == "Not initialized"
      ensures IsInitialized() ==> r == initializedProvider.value.versionString
    {
      VersionString(initializedProvider)
    }
  }

  datatype Result = Ok(engine: Engine) | Err(failure: Failure)

  /** The registry after the two initializers ran on an empty registry. */
  function Bootstrapped(webViewInit: Option<Provider>, geckoInit: Option<Provider>): (r: seq<Provider>)
    ensures UniqueNames(r)
    ensures |r| <= 2
    ensures r == [] <==> webViewInit.None? && geckoInit.None?
    ensures geckoInit.Some? ==> geckoInit.value in r
    ensures webViewInit.Some? && (geckoInit.None? || geckoInit.value.name != webViewInit.value.name) ==>
              r[0] == webViewInit.value
  {
    var afterWebView := if webViewInit.Some? then [webViewInit.value] else [];
    assert Names([]) == [];
    if geckoInit.Some? then
      PutKeepsOthers(afterWebView, geckoInit.value, if geckoInit.value.name == "" then "x" else "");
      if webViewInit.Some? && webViewInit.value.name != geckoInit.value.name then
        PutNew(afterWebView, geckoInit.value);
        Put(afterWebView, geckoInit.value)
      else Put(afterWebView, geckoInit.value)
    else afterWebView
  }

  /** What `getWebEngineVersionString` answers for a selection. */
  function VersionString(selected: Option<Provider>): (r: string)
    ensures selected.None? ==> r == "Not initialized"
    ensures selected.Some? ==> r == selected.value.versionString
  {
    match selected
    case None => "Not initialized"
    case Some(p) => p.versionString
  }
}
