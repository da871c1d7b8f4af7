/** The legacy main view model: start-up loading, the debounced history
    log, title updates of the last visit and the home-page link list. Storage
    is a command log; a query's answer is an argument. The coroutine that
    saves a visit after a delay is a pending job, run by `SaveJobFires`. */
module MainVm {
  import opened Strings
  import opened Records

  /** Visits closer together than this are one visit (milliseconds). */
  const MinVisitedInterval := 5000
  /** History is pruned only when it holds more entries than this. */
  const HistoryPruneThreshold := 5000

  /** Whether `logVisitedHistory` ignores a visit: the same URL as the last
      visit, the home page, or a URL that does not start with "http" in any
      letter case. */
  predicate IgnoresVisit(url: string, lastUrl: Option<string>, homeUrl: string) {
    lastUrl == Some(url) || url == homeUrl || !StartsWithIgnoreCase(url, "http")
  }

  /** Whether a new visit cancels the last visit's pending save: only while
      that visit is unsaved and younger than the interval. */
  predicate CancelsPendingSave(lastSaved: bool, lastTime: int, now: int) {
    !lastSaved && lastTime + MinVisitedInterval > now
  }

  /** `initHistory`'s prune: entries older than `cutoff` (three months ago)
      are deleted when there are more than the threshold. */
  function PruneCommands(count: int, cutoff: int): (r: seq<HistoryCommand>)
    ensures r == [] <==> count <= HistoryPruneThreshold
    ensures forall c :: c in r ==> c == DeleteOlderThan(cutoff)
  {
    if count > HistoryPruneThreshold then [DeleteOlderThan(cutoff)] else []
  }

  datatype LinksMode = MostVisited | LatestHistory | Bookmarks

  /** `loadHomePageLinks`: nothing to show unless the home page is the
      browser's own; otherwise the links of the configured source.
      `mostVisited` and `latest` are the history queries' answers already
      turned into links. */
  function HomePageLinksFor(isHomePage: bool, mode: LinksMode, mostVisited: seq<HomePageLink>,
                            latest: seq<HomePageLink>, bookmarks: seq<FavoriteItem>,
                            linkOf: FavoriteItem -> HomePageLink): (r: Option<seq<HomePageLink>>)
    ensures r.None? <==> !isHomePage
    ensures r.Some? && mode.Bookmarks? ==>
      |r.value| == |bookmarks| && forall i :: 0 <= i < |bookmarks| ==> r.value[i] == linkOf(bookmarks[i])
    ensures r.Some? && !mode.Bookmarks? ==> r.value == if mode.MostVisited? then mostVisited else latest
  {
    if !isHomePage then None
    else
      match mode
      case MostVisited => Some(mostVisited)
      case LatestHistory => Some(latest)
      case Bookmarks => Some(LinksOf(bookmarks, linkOf))
  }

  /** `indexOfFirst { it.favoriteId == id }`. */
  function IndexOfFavorite(links: seq<HomePageLink>, id: int): (i: int)
    ensures -1 <= i < |links|
    ensures i == -1 <==> forall k :: 0 <= k < |links| ==> links[k].favoriteId != Some(id)
    ensures i >= 0 ==> links[i].favoriteId == Some(id)
                       && forall k :: 0 <= k < i ==> links[k].favoriteId != Some(id)
  {
    if links == [] then -1
    else if links[0].favoriteId == Some(id) then 0
    else
      var j := IndexOfFavorite(links[1..], id);
      assert forall k :: 1 <= k < |links| ==> links[1..][k - 1] == links[k];
      if j == -1 then -1 else j + 1
  }

  /** The link list after `onHomePageLinkEdited`: a new item's link is
      appended under the id storage gave it; an existing item's link
      replaces the first link carrying its id, if any. */
  function EditedLinks(links: seq<HomePageLink>, item: FavoriteItem, newId: int,
                       linkOf: FavoriteItem -> HomePageLink): (r: seq<HomePageLink>)
    ensures item.id == 0 ==> r == links + [linkOf(item.(id := newId))]
    ensures item.id != 0 ==> |r| == |links|
    ensures item.id != 0 ==> forall k :: 0 <= k < |links| && links[k].favoriteId != Some(item.id) ==> r[k] == links[k]
    ensures item.id != 0 ==> forall k :: 0 <= k < |links| && links[k].favoriteId == Some(item.id) ==>
              r[k] == linkOf(item) || (exists j :: 0 <= j < k && links[j].favoriteId == Some(item.id))
    ensures item.id != 0 && IndexOfFavorite(links, item.id) >= 0 ==>
              r == links[IndexOfFavorite(links, item.id) := linkOf(item)]
    ensures item.id != 0 && IndexOfFavorite(links, item.id) == -1 ==> r == links
  {
    if item.id == 0 then links + [linkOf(item.(id := newId))]
    else
      var i := IndexOfFavorite(links, item.id);
      if i == -1 then links else links[i := linkOf(item)]
  }

  /** Editing the same stored item twice leaves the list as editing it once,
      provided its link carries its id. */
  lemma EditedLinksIdempotent(links: seq<HomePageLink>, item: FavoriteItem, newId: int,
                              linkOf: FavoriteItem -> HomePageLink)
    requires item.id != 0 && linkOf(item).favoriteId == Some(item.id)
    ensures EditedLinks(EditedLinks(links, item, newId, linkOf), item, newId, linkOf)
            == EditedLinks(links, item, newId, linkOf)
  {
    var i := IndexOfFavorite(links, item.id);
    if i != -1 {
      var once := links[i := linkOf(item)];
      assert forall k :: 0 <= k < i ==> once[k] == links[k];
      assert once[i].favoriteId == Some(item.id);
    }
  }

  /** The legacy main view model's state. `lastSaveJob` is the item the
      most recently launched save job inserts; `pendingSaves` are the jobs
      launched and neither run nor cancelled. */
  class MainViewModel {
    var loaded: bool
    var lastHistoryItem: HistoryItem?
    var lastSaveJob: HistoryItem?
    var pendingSaves: set<HistoryItem>
    var homePageLinks: seq<HomePageLink>
    var historyCommands: seq<HistoryCommand>
    var favoritesCommands: seq<FavoritesCommand>

    /** Every pending save is for an item not saved yet. */
    ghost predicate Valid()
      reads this, pendingSaves
    {
      forall x :: x in pendingSaves ==> !x.saved
    }

    function LastUrl(): Option<string>
      reads this, lastHistoryItem
    {
      if lastHistoryItem == null then None else Some(lastHistoryItem.url)
    }

    constructor ()
      ensures Valid()
      ensures !loaded && lastHistoryItem == null && lastSaveJob == null && pendingSaves == {}
      ensures homePageLinks == [] && historyCommands == [] && favoritesCommands == []
    {
      loaded := false;
      lastHistoryItem := null;
      lastSaveJob := null;
      pendingSaves := {};
      homePageLinks := [];
      historyCommands := [];
      favoritesCommands := [];
    }

    /** `loadHomePageLinks`: the list is replaced only when there is one to
        show. */
    method LoadHomePageLinks(links: Option<seq<HomePageLink>>)
      modifies this
      ensures homePageLinks == if links.Some? then links.value else old(homePageLinks)
      ensures loaded == old(loaded) && lastHistoryItem == old(lastHistoryItem) && lastSaveJob == old(lastSaveJob)
      ensures pendingSaves == old(pendingSaves)
      ensures historyCommands == old(historyCommands) && favoritesCommands == old(favoritesCommands)
    {
      if links.Some? {
        homePageLinks := links.value;
      }
    }

    /** `loadState`: runs once. History is pruned when `count` entries
        exceed the threshold, the newest stored visit (`newest`, the
        answer of `last()`) becomes the last one, and the links load. */
    method LoadState(count: int, cutoff: int, newest: seq<HistoryItem>, links: Option<seq<HomePageLink>>)
      requires Valid()
      modifies this
      ensures Valid()
      ensures old(loaded) ==> unchanged(this)
      ensures !old(loaded) ==>
        loaded
        && historyCommands == old(historyCommands) + PruneCommands(count, cutoff)
        && lastHistoryItem == (if newest != [] then newest[0] else old(lastHistoryItem))
        && homePageLinks == (if links.Some? then links.value else old(homePageLinks))
        && lastSaveJob == old(lastSaveJob) && pendingSaves == old(pendingSaves)
        && favoritesCommands == old(favoritesCommands)
    {
      if loaded {
        return;
      }
      historyCommands := historyCommands + PruneCommands(count, cutoff);
      if newest != [] {
        lastHistoryItem := newest[0];
      }
      LoadHomePageLinks(links);
      loaded := true;
    }

    /** `logVisitedHistory`: an accepted visit becomes the last one at once,
        unsaved, and a save job is launched for it; the previous job is
        cancelled only while its visit is unsaved and recent. */
    method LogVisitedHistory(title: Option<string>, url: string, favicon: Option<string>, now: int, homeUrl: string)
      returns (logged: HistoryItem?)
      requires Valid()
      modifies this
      ensures Valid()
      ensures old(IgnoresVisit(url, LastUrl(), homeUrl)) ==> logged == null && unchanged(this)
      ensures !old(IgnoresVisit(url, LastUrl(), homeUrl)) ==>
        logged != null && fresh(logged)
        && logged.url == url && logged.title == title.GetOr("") && logged.time == now
        && logged.favicon == favicon && logged.id == 0 && !logged.saved
        && lastHistoryItem == logged && lastSaveJob == logged
        && pendingSaves ==
             (if old(lastHistoryItem != null && CancelsPendingSave(lastHistoryItem.saved, lastHistoryItem.time, now))
              then WithoutJob(old(pendingSaves), old(lastSaveJob))
              else old(pendingSaves)) + {logged}
        && loaded == old(loaded) && homePageLinks == old(homePageLinks)
        && historyCommands == old(historyCommands) && favoritesCommands == old(favoritesCommands)
    {
      if IgnoresVisit(url, LastUrl(), homeUrl) {
        return null;
      }
      if lastHistoryItem != null && CancelsPendingSave(lastHistoryItem.saved, lastHistoryItem.time, now) {
        pendingSaves := WithoutJob(pendingSaves, lastSaveJob);
      }
      logged := new HistoryItem(url, title.GetOr(""), now, favicon);
      lastHistoryItem := logged;
      lastSaveJob := logged;
      pendingSaves := pendingSaves + {logged};
    }

    /** A save job runs after the delay: the item is inserted with the
        fields it has by then, takes the row id and is marked saved. */
    method SaveJobFires(item: HistoryItem, newId: int)
      requires Valid() && item in pendingSaves
      modifies this, item
      ensures Valid()
      ensures item.id == newId && item.saved
      ensures item.url == old(item.url) && item.title == old(item.title) && item.time == old(item.time)
      ensures item.favicon == old(item.favicon)
      ensures historyCommands == old(historyCommands) + [InsertVisit(item.url, item.title, item.time, item.favicon)]
      ensures pendingSaves == WithoutJob(old(pendingSaves), item) && item !in pendingSaves
      ensures loaded == old(loaded) && lastHistoryItem == old(lastHistoryItem) && lastSaveJob == old(lastSaveJob)
      ensures homePageLinks == old(homePageLinks) && favoritesCommands == old(favoritesCommands)
    {
      historyCommands := historyCommands + [InsertVisit(item.url, item.title, item.time, item.favicon)];
      pendingSaves := WithoutJob(pendingSaves, item);
      item.MarkSaved(newId);
    }

    /** `onTabTitleUpdated`: outside incognito mode, a tab showing the last
        visit's URL renames that visit; the new title is written to storage
        only once the visit is saved. */
    method OnTabTitleUpdated(incognito: bool, tabUrl: string, tabTitle: string)
      requires Valid()
      modifies this, lastHistoryItem
      ensures Valid()
      ensures lastHistoryItem == old(lastHistoryItem)
      ensures incognito || lastHistoryItem == null || tabUrl != old(lastHistoryItem.url) ==>
        historyCommands == old(historyCommands) && (lastHistoryItem != null ==> lastHistoryItem.title == old(lastHistoryItem.title))
      ensures !incognito && lastHistoryItem != null && tabUrl == old(lastHistoryItem.url) ==>
        lastHistoryItem.title == tabTitle
        && historyCommands == old(historyCommands)
             + (if lastHistoryItem.saved then [UpdateTitle(lastHistoryItem.id, tabTitle)] else [])
      ensures lastHistoryItem != null ==>
        lastHistoryItem.url == old(lastHistoryItem.url) && lastHistoryItem.saved == old(lastHistoryItem.saved)
        && lastHistoryItem.id == old(lastHistoryItem.id) && lastHistoryItem.time == old(lastHistoryItem.time)
      ensures loaded == old(loaded) && lastSaveJob == old(lastSaveJob) && pendingSaves == old(pendingSaves)
      ensures homePageLinks == old(homePageLinks) && favoritesCommands == old(favoritesCommands)
    {
      if incognito {
        return;
      }
      var item := lastHistoryItem;
      if item == null {
        return;
      }
      if tabUrl == item.url {
        item.title := tabTitle;
        if item.saved {
          historyCommands := historyCommands + [UpdateTitle(item.id, item.title)];
        }
      }
    }

    /** `removeHomePageLink`: the link leaves the list, and its bookmark is
        deleted when it comes from one. */
    method RemoveHomePageLink(link: HomePageLink)
      modifies this
      ensures homePageLinks == RemoveFirst(old(homePageLinks), link)
      ensures favoritesCommands == old(favoritesCommands)
        + (if link.favoriteId.Some? then [DeleteFavoriteById(link.favoriteId.value)] else [])
      ensures loaded == old(loaded) && lastHistoryItem == old(lastHistoryItem) && lastSaveJob == old(lastSaveJob)
      ensures pendingSaves == old(pendingSaves) && historyCommands == old(historyCommands)
    {
      homePageLinks := RemoveFirst(homePageLinks, link);
      if link.favoriteId.Some? {
        favoritesCommands := favoritesCommands + [DeleteFavoriteById(link.favoriteId.value)];
      }
    }

    /** `onHomePageLinkEdited`: a new item is inserted and takes the id
        storage returns (`newId`); an existing one is updated. Returns the
        item as the caller then holds it. */
    method OnHomePageLinkEdited(item: FavoriteItem, newId: int, linkOf: FavoriteItem -> HomePageLink)
      returns (stored: FavoriteItem)
      modifies this
      ensures stored == if item.id == 0 then item.(id := newId) else item
      ensures favoritesCommands == old(favoritesCommands) + [StoreCommand(item)]
      ensures homePageLinks == EditedLinks(old(homePageLinks), item, newId, linkOf)
      ensures loaded == old(loaded) && lastHistoryItem == old(lastHistoryItem) && lastSaveJob == old(lastSaveJob)
      ensures pendingSaves == old(pendingSaves) && historyCommands == old(historyCommands)
    {
      favoritesCommands := favoritesCommands + [StoreCommand(item)];
      if item.id == 0 {
        stored := item.(id := newId);
        homePageLinks := homePageLinks + [linkOf(stored)];
      } else {
        stored := item;
        var index := IndexOfFavorite(homePageLinks, item.id);
        if index != -1 {
          homePageLinks := homePageLinks[index := linkOf(item)];
        }
      }
    }

    /** `markBookmarkRecommendationAsUseful`. */
    method MarkBookmarkRecommendationAsUseful(bookmarkOrder: int)
      modifies this
      ensures var id := RecommendationToMark(homePageLinks, bookmarkOrder);
        favoritesCommands == old(favoritesCommands) + (if id.Some? then [MarkAsUseful(id.value)] else [])
      ensures homePageLinks == old(homePageLinks) && loaded == old(loaded) && lastHistoryItem == old(lastHistoryItem)
      ensures lastSaveJob == old(lastSaveJob) && pendingSaves == old(pendingSaves) && historyCommands == old(historyCommands)
    {
      var id := RecommendationToMark(homePageLinks, bookmarkOrder);
      if id.Some? {
        favoritesCommands := favoritesCommands + [MarkAsUseful(id.value)];
      }
    }
  }
}
