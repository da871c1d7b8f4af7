/** The Compose-era browser data view model: one-time loading, the home-page
    links with their first-run recommendations, the debounced history log
    and title updates. Storage is a command log; a query's answer is an
    argument; the delayed save is a pending job run by `SaveJobFires`. */
module BrowserData {
  import opened Strings
  import opened Records
  import MainVm

  /** Whether `logVisitedHistory` ignores a visit: in incognito mode, for a
      URL not starting with "http" in exactly that case, for the home page
      and for the same URL as the last visit. */
  predicate IgnoresVisit(incognito: bool, url: string, lastUrl: Option<string>, homeUrl: string) {
    incognito || !StartsWith(url, "http") || url == homeUrl || lastUrl == Some(url)
  }

  /** Outside incognito mode this view model logs no visit the legacy one
      would ignore: its scheme test is the stricter of the two. */
  lemma LogsOnlyWhatLegacyLogs(url: string, lastUrl: Option<string>, homeUrl: string)
    requires !IgnoresVisit(false, url, lastUrl, homeUrl)
    ensures !MainVm.IgnoresVisit(url, lastUrl, homeUrl)
  {
    assert url[..4] == "http";
    assert forall i :: 0 <= i < 4 ==> LowerAscii(url[..4][i]) == LowerAscii("http"[i]);
  }

  /** The converse fails: an upper-case scheme is logged by the legacy view
      model and ignored here. */
  lemma UpperCaseSchemeLoggedOnlyByLegacy(lastUrl: Option<string>, homeUrl: string)
    requires lastUrl != Some("HTTP://a") && homeUrl != "HTTP://a"
    ensures IgnoresVisit(false, "HTTP://a", lastUrl, homeUrl)
    ensures !MainVm.IgnoresVisit("HTTP://a", lastUrl, homeUrl)
  {
    assert "HTTP://a"[..4] == "HTTP";
    assert "HTTP" != "http" by { assert "HTTP"[0] != "http"[0]; }
    assert forall i :: 0 <= i < 4 ==> LowerAscii("HTTP://a"[..4][i]) == LowerAscii("http"[i]);
  }

  /** The insert commands for the fetched recommendations, in order. */
  function InsertAll(recs: seq<FavoriteItem>): (r: seq<FavoritesCommand>)
    ensures |r| == |recs| && forall i :: 0 <= i < |recs| ==> r[i] == InsertFavorite(recs[i])
  {
    seq(|recs|, i requires 0 <= i < |recs| => InsertFavorite(recs[i]))
  }

  /** Whether reloading the links fetches the first-run recommendations:
      only on the browser's own home page, with no home bookmarks yet, and
      when they were never loaded before. */
  predicate FetchesRecommendations(isHomePage: bool, bookmarks: seq<FavoriteItem>, suggestionsLoaded: bool) {
    isHomePage && bookmarks == [] && !suggestionsLoaded
  }

  /** The links `reloadHomePageLinks` shows: none off the browser's home
      page; after a first-run fetch, the bookmarks as re-read
      (`bookmarksAfter`); otherwise the bookmarks read first. */
  function ReloadedLinks(isHomePage: bool, bookmarks: seq<FavoriteItem>, suggestionsLoaded: bool,
                         bookmarksAfter: seq<FavoriteItem>, linkOf: FavoriteItem -> HomePageLink): (r: seq<HomePageLink>)
    ensures !isHomePage ==> r == []
    ensures isHomePage && bookmarks != [] ==> r == LinksOf(bookmarks, linkOf)
    ensures isHomePage && suggestionsLoaded ==> r == LinksOf(bookmarks, linkOf)
    ensures FetchesRecommendations(isHomePage, bookmarks, suggestionsLoaded) ==> r == LinksOf(bookmarksAfter, linkOf)
  {
    if !isHomePage then []
    else if FetchesRecommendations(isHomePage, bookmarks, suggestionsLoaded) then LinksOf(bookmarksAfter, linkOf)
    else LinksOf(bookmarks, linkOf)
  }

  /** Once recommendations have been loaded, a reload never fetches them
      again, whatever the bookmarks. */
  lemma FetchAtMostOnce(isHomePage: bool, bookmarks: seq<FavoriteItem>)
    ensures !FetchesRecommendations(isHomePage, bookmarks, true)
  {
  }

  class BrowserDataViewModel {
    var loaded: bool
    /** `initialBookmarksSuggestionsLoaded` of the configuration. */
    var suggestionsLoaded: bool
    /** How many times the recommendations were fetched. */
    var recommendationFetches: nat
    var lastHistoryItem: HistoryItem?
    var lastSaveJob: HistoryItem?
    var pendingSaves: set<HistoryItem>
    var homePageLinks: seq<HomePageLink>
    var historyCommands: seq<HistoryCommand>
    var favoritesCommands: seq<FavoritesCommand>

    /** At most one save is pending, the most recent one, and it is for an
        item not saved yet: every visit cancels the previous save. */
    ghost predicate Valid()
      reads this, pendingSaves
    {
      forall x :: x in pendingSaves ==> x == lastSaveJob && !x.saved
    }

    function LastUrl(): Option<string>
      reads this, lastHistoryItem
    {
      if lastHistoryItem == null then None else Some(lastHistoryItem.url)
    }

    constructor (suggestionsLoaded: bool)
      ensures Valid()
      ensures !loaded && this.suggestionsLoaded == suggestionsLoaded && recommendationFetches == 0
      ensures lastHistoryItem == null && lastSaveJob == null && pendingSaves == {}
      ensures homePageLinks == [] && historyCommands == [] && favoritesCommands == []
    {
      loaded := false;
      this.suggestionsLoaded := suggestionsLoaded;
      recommendationFetches := 0;
      lastHistoryItem := null;
      lastSaveJob := null;
      pendingSaves := {};
      homePageLinks := [];
      historyCommands := [];
      favoritesCommands := [];
    }

    /** Inserts the fetched recommendations one by one. */
    method InsertRecommendations(recs: seq<FavoriteItem>)
      modifies this
      ensures favoritesCommands == old(favoritesCommands) + InsertAll(recs)
      ensures loaded == old(loaded) && suggestionsLoaded == old(suggestionsLoaded)
      ensures recommendationFetches == old(recommendationFetches)
      ensures lastHistoryItem == old(lastHistoryItem) && lastSaveJob == old(lastSaveJob)
      ensures pendingSaves == old(pendingSaves) && homePageLinks == old(homePageLinks)
      ensures historyCommands == old(historyCommands)
    {
      for i := 0 to |recs|
        invariant favoritesCommands == old(favoritesCommands) + InsertAll(recs[..i])
        invariant loaded == old(loaded) && suggestionsLoaded == old(suggestionsLoaded)
        invariant recommendationFetches == old(recommendationFetches)
        invariant lastHistoryItem == old(lastHistoryItem) && lastSaveJob == old(lastSaveJob)
        invariant pendingSaves == old(pendingSaves) && homePageLinks == old(homePageLinks)
        invariant historyCommands == old(historyCommands)
      {
        assert InsertAll(recs[..i + 1]) == InsertAll(recs[..i]) + [InsertFavorite(recs[i])];
        favoritesCommands := favoritesCommands + [InsertFavorite(recs[i])];
      }
      assert recs[..|recs|] == recs;
    }

    /** `reloadHomePageLinks`. `bookmarks` and `bookmarksAfter` are the home
        bookmarks before and after a first-run fetch, `recs` the fetch's
        answer (None when it failed). */
    method ReloadHomePageLinks(isHomePage: bool, bookmarks: seq<FavoriteItem>, recs: Option<seq<FavoriteItem>>,
                               bookmarksAfter: seq<FavoriteItem>, linkOf: FavoriteItem -> HomePageLink)
      modifies this
      ensures homePageLinks == ReloadedLinks(isHomePage, bookmarks, old(suggestionsLoaded), bookmarksAfter, linkOf)
      ensures FetchesRecommendations(isHomePage, bookmarks, old(suggestionsLoaded)) ==>
        suggestionsLoaded && recommendationFetches == old(recommendationFetches) + 1
        && favoritesCommands == old(favoritesCommands) + (if recs.Some? then InsertAll(recs.value) else [])
      ensures !FetchesRecommendations(isHomePage, bookmarks, old(suggestionsLoaded)) ==>
        suggestionsLoaded == old(suggestionsLoaded) && recommendationFetches == old(recommendationFetches)
        && favoritesCommands == old(favoritesCommands)
      ensures loaded == old(loaded) && lastHistoryItem == old(lastHistoryItem) && lastSaveJob == old(lastSaveJob)
      ensures pendingSaves == old(pendingSaves) && historyCommands == old(historyCommands)
    {
      if FetchesRecommendations(isHomePage, bookmarks, suggestionsLoaded) {
        recommendationFetches := recommendationFetches + 1;
        if recs.Some? {
          InsertRecommendations(recs.value);
        }
        suggestionsLoaded := true;
        homePageLinks := LinksOf(bookmarksAfter, linkOf);
      } else if isHomePage {
        homePageLinks := LinksOf(bookmarks, linkOf);
      } else {
        homePageLinks := [];
      }
    }

    /** `loadOnce`: only the first call loads. The newest stored visit
        (`newest`, the answer of `last(1)`) becomes the last one, and the
        links are reloaded. */
    method LoadOnce(newest: seq<HistoryItem>, isHomePage: bool, bookmarks: seq<FavoriteItem>,
                    recs: Option<seq<FavoriteItem>>, bookmarksAfter: seq<FavoriteItem>,
                    linkOf: FavoriteItem -> HomePageLink)
      requires Valid()
      modifies this
      ensures Valid()
      ensures old(loaded) ==> unchanged(this)
      ensures !old(loaded) ==>
        loaded
        && lastHistoryItem == (if newest != [] then newest[0] else old(lastHistoryItem))
        && homePageLinks == ReloadedLinks(isHomePage, bookmarks, old(suggestionsLoaded), bookmarksAfter, linkOf)
        && lastSaveJob == old(lastSaveJob) && pendingSaves == old(pendingSaves)
        && historyCommands == old(historyCommands)
      ensures !old(loaded) && FetchesRecommendations(isHomePage, bookmarks, old(suggestionsLoaded)) ==>
        suggestionsLoaded && recommendationFetches == old(recommendationFetches) + 1
        && favoritesCommands == old(favoritesCommands) + (if recs.Some? then InsertAll(recs.value) else [])
      ensures !old(loaded) && !FetchesRecommendations(isHomePage, bookmarks, old(suggestionsLoaded)) ==>
        suggestionsLoaded == old(suggestionsLoaded) && recommendationFetches == old(recommendationFetches)
        && favoritesCommands == old(favoritesCommands)
    {
      if loaded {
        return;
      }
      loaded := true;
      if newest != [] {
        lastHistoryItem := newest[0];
      }
      ReloadHomePageLinks(isHomePage, bookmarks, recs, bookmarksAfter, linkOf);
    }

    /** `logVisitedHistory`: an accepted visit becomes the last one at once,
        unsaved; the previous save job is cancelled whatever its state and a
        new one is launched. */
    method LogVisitedHistory(incognito: bool, title: Option<string>, url: string, favicon: Option<string>,
                             now: int, homeUrl: string)
      returns (logged: HistoryItem?)
      requires Valid()
      modifies this
      ensures Valid()
      ensures old(IgnoresVisit(incognito, url, LastUrl(), homeUrl)) ==> logged == null && unchanged(this)
      ensures !old(IgnoresVisit(incognito, url, LastUrl(), homeUrl)) ==>
        logged != null && fresh(logged)
        && logged.url == url && logged.title == title.GetOr("") && logged.time == now
        && logged.favicon == favicon && logged.id == 0 && !logged.saved
        && lastHistoryItem == logged && lastSaveJob == logged
        && pendingSaves == WithoutJob(old(pendingSaves), old(lastSaveJob)) + {logged}
        && pendingSaves == {logged}
        && loaded == old(loaded) && homePageLinks == old(homePageLinks)
        && historyCommands == old(historyCommands) && favoritesCommands == old(favoritesCommands)
        && suggestionsLoaded == old(suggestionsLoaded) && recommendationFetches == old(recommendationFetches)
    {
      if IgnoresVisit(incognito, url, LastUrl(), homeUrl) {
        return null;
      }
      logged := new HistoryItem(url, title.GetOr(""), now, favicon);
      lastHistoryItem := logged;
      pendingSaves := WithoutJob(pendingSaves, lastSaveJob) + {logged};
      lastSaveJob := logged;
    }

    /** The save job runs after the delay: the item is inserted, takes the
        row id and is marked saved. */
    method SaveJobFires(item: HistoryItem, newId: int)
      requires Valid() && item in pendingSaves
      modifies this, item
      ensures Valid()
      ensures item.id == newId && item.saved
      ensures item.url == old(item.url) && item.title == old(item.title) && item.time == old(item.time)
      ensures item.favicon == old(item.favicon)
      ensures historyCommands == old(historyCommands) + [InsertVisit(item.url, item.title, item.time, item.favicon)]
      ensures pendingSaves == {}
      ensures loaded == old(loaded) && lastHistoryItem == old(lastHistoryItem) && lastSaveJob == old(lastSaveJob)
      ensures homePageLinks == old(homePageLinks) && favoritesCommands == old(favoritesCommands)
      ensures suggestionsLoaded == old(suggestionsLoaded) && recommendationFetches == old(recommendationFetches)
    {
      historyCommands := historyCommands + [InsertVisit(item.url, item.title, item.time, item.favicon)];
      pendingSaves := WithoutJob(pendingSaves, item);
      item.MarkSaved(newId);
    }

    /** `onTabTitleUpdated`: only a saved last visit shown by the current
        tab is renamed, and the new title is written to storage. */
    method OnTabTitleUpdated(currentUrl: string, newTitle: string)
      requires Valid()
      modifies this, lastHistoryItem
      ensures Valid()
      ensures lastHistoryItem == old(lastHistoryItem)
      ensures lastHistoryItem != null && currentUrl == old(lastHistoryItem.url) && old(lastHistoryItem.saved) ==>
        lastHistoryItem.title == newTitle
        && historyCommands == old(historyCommands) + [UpdateTitle(lastHistoryItem.id, newTitle)]
      ensures !(lastHistoryItem != null && currentUrl == old(lastHistoryItem.url) && old(lastHistoryItem.saved)) ==>
        historyCommands == old(historyCommands) && (lastHistoryItem != null ==> lastHistoryItem.title == old(lastHistoryItem.title))
      ensures lastHistoryItem != null ==>
        lastHistoryItem.url == old(lastHistoryItem.url) && lastHistoryItem.saved == old(lastHistoryItem.saved)
        && lastHistoryItem.id == old(lastHistoryItem.id) && lastHistoryItem.time == old(lastHistoryItem.time)
      ensures loaded == old(loaded) && lastSaveJob == old(lastSaveJob) && pendingSaves == old(pendingSaves)
      ensures homePageLinks == old(homePageLinks) && favoritesCommands == old(favoritesCommands)
      ensures suggestionsLoaded == old(suggestionsLoaded) && recommendationFetches == old(recommendationFetches)
    {
      var last := lastHistoryItem;
      if last == null {
        return;
      }
      if currentUrl == last.url && last.saved {
        last.title := newTitle;
        historyCommands := historyCommands + [UpdateTitle(last.id, newTitle)];
      }
    }

    /** `markBookmarkRecommendationAsUseful`: the same rule as the legacy
        view model. */
    method MarkBookmarkRecommendationAsUseful(order: int)
      modifies this
      ensures var id := RecommendationToMark(homePageLinks, order);
        favoritesCommands == old(favoritesCommands) + (if id.Some? then [MarkAsUseful(id.value)] else [])
      ensures homePageLinks == old(homePageLinks) && loaded == old(loaded) && lastHistoryItem == old(lastHistoryItem)
      ensures lastSaveJob == old(lastSaveJob) && pendingSaves == old(pendingSaves) && historyCommands == old(historyCommands)
      ensures suggestionsLoaded == old(suggestionsLoaded) && recommendationFetches == old(recommendationFetches)
    {
      var id := RecommendationToMark(homePageLinks, order);
      if id.Some? {
        favoritesCommands := favoritesCommands + [MarkAsUseful(id.value)];
      }
    }
  }
}
