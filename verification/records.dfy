/** The stored records the browser's editors and view models work on, and the
    storage commands they issue. Storage itself is not modelled: a query's
    answer is an input, and a write is a command appended to a log. */
module Records {
  import opened Strings

  /** A bookmark, a bookmark folder or a home-page slot. `id` 0 means "not
      stored yet"; `title` and `url` may be absent. */
  datatype FavoriteItem = FavoriteItem(
    id: int,
    title: Option<string>,
    url: Option<string>,
    parent: int,
    isFolder: bool,
    homePageBookmark: bool,
    order: int,
    validUntil: Option<int>)

  /** A freshly constructed, not yet stored item. */
  function NewFavoriteItem(): (item: FavoriteItem)
    ensures item.id == 0 && item.title == None && item.url == None
    ensures !item.isFolder && !item.homePageBookmark && item.validUntil == None
  {
    FavoriteItem(0, None, None, 0, false, false, 0, None)
  }

  /** Writes to the favorites table. */
  datatype FavoritesCommand =
    | InsertFavorite(item: FavoriteItem)
    | UpdateFavorite(item: FavoriteItem)
    | DeleteFavorite(item: FavoriteItem)
    | DeleteFavoriteById(id: int)
    | MarkAsUseful(id: int)

  /** `insert` for an item not stored yet, `update` otherwise. */
  function StoreCommand(item: FavoriteItem): (c: FavoritesCommand)
    ensures c.InsertFavorite? <==> item.id == 0
    ensures c.InsertFavorite? || c.UpdateFavorite?
    ensures c.item == item
  {
    if item.id == 0 then InsertFavorite(item) else UpdateFavorite(item)
  }

  /** The first item whose `order` is the given one (`find` / `firstOrNull`). */
  function FirstWithOrder(items: seq<FavoriteItem>, order: int): (r: Option<FavoriteItem>)
    ensures r.None? <==> forall i :: 0 <= i < |items| ==> items[i].order != order
    ensures r.Some? ==> exists k :: 0 <= k < |items| && items[k] == r.value && r.value.order == order
                                    && forall i :: 0 <= i < k ==> items[i].order != order
  {
    if items == [] then None
    else if items[0].order == order then Some(items[0])
    else
      var r := FirstWithOrder(items[1..], order);
      assert forall i :: 1 <= i < |items| ==> items[1..][i - 1] == items[i];
      if r.Some? then
        var k :| 0 <= k < |items[1..]| && items[1..][k] == r.value && r.value.order == order
                 && forall i :: 0 <= i < k ==> items[1..][i].order != order;
        assert items[k + 1] == r.value;
        assert forall i :: 0 <= i < k + 1 ==> items[i].order != order;
        r
      else r
  }

  /** A link shown on the home page. Where it comes from a bookmark it
      carries the bookmark's id; `order` and `validUntil` are set for
      bookmark slots and recommendations. */
  datatype HomePageLink = HomePageLink(
    title: string,
    url: string,
    favoriteId: Option<int>,
    order: Option<int>,
    validUntil: Option<int>)

  /** The home-page links of a list of bookmarks, in list order. `linkOf`
      stands for `HomePageLink.fromBookmarkItem`. */
  function LinksOf(bookmarks: seq<FavoriteItem>, linkOf: FavoriteItem -> HomePageLink): (r: seq<HomePageLink>)
    ensures |r| == |bookmarks| && forall i :: 0 <= i < |r| ==> r[i] == linkOf(bookmarks[i])
  {
    seq(|bookmarks|, i requires 0 <= i < |bookmarks| => linkOf(bookmarks[i]))
  }

  /** `markBookmarkRecommendationAsUseful`: the favorite to mark, found as
      the first link with the given order, provided that link has a
      favorite id and an expiry (only recommendations have one). */
  function RecommendationToMark(links: seq<HomePageLink>, order: int): (r: Option<int>)
    ensures r.Some? ==> exists k :: 0 <= k < |links| && links[k].order == Some(order)
                          && links[k].favoriteId == r && links[k].validUntil.Some?
                          && forall j :: 0 <= j < k ==> links[j].order != Some(order)
    ensures r.None? ==> forall k :: 0 <= k < |links| && links[k].order == Some(order)
                          && (forall j :: 0 <= j < k ==> links[j].order != Some(order))
                          ==> links[k].favoriteId.None? || links[k].validUntil.None?
  {
    if links == [] then None
    else if links[0].order == Some(order) then
      if links[0].validUntil.Some? then links[0].favoriteId else None
    else
      var r := RecommendationToMark(links[1..], order);
      assert forall i :: 1 <= i < |links| ==> links[1..][i - 1] == links[i];
      if r.Some? then
        var k :| 0 <= k < |links[1..]| && links[1..][k].order == Some(order)
                 && links[1..][k].favoriteId == r && links[1..][k].validUntil.Some?
                 && forall j :: 0 <= j < k ==> links[1..][j].order != Some(order);
        assert links[k + 1] == links[1..][k];
        r
      else r
  }

  /** A visited page. The browser changes an item after creating it: the
      delayed insert gives it its row id and marks it saved, and a title
      update rewrites its title. */
  class HistoryItem {
    var id: int
    var url: string
    var title: string
    var time: int
    var favicon: Option<string>
    var saved: bool

    constructor (url: string, title: string, time: int, favicon: Option<string>)
      ensures this.url == url && this.title == title && this.time == time && this.favicon == favicon
      ensures id == 0 && !saved
    {
      this.url := url;
      this.title := title;
      this.time := time;
      this.favicon := favicon;
      id := 0;
      saved := false;
    }

    /** The delayed insert's completion: the row id is taken and the item
        counts as saved. */
    method MarkSaved(rowId: int)
      modifies this
      ensures id == rowId && saved
      ensures url == old(url) && title == old(title) && time == old(time) && favicon == old(favicon)
    {
      id := rowId;
      saved := true;
    }
  }

  /** Writes to the history table. */
  datatype HistoryCommand =
    | InsertVisit(url: string, title: string, time: int, favicon: Option<string>)
    | UpdateTitle(id: int, title: string)
    | DeleteOlderThan(time: int)

  /** Launched save jobs that have neither run nor been cancelled, each
      standing for the item it will insert, with `job` cancelled. Cancelling
      a job that already ran changes nothing. */
  function WithoutJob(pending: set<HistoryItem>, job: HistoryItem?): (r: set<HistoryItem>)
    ensures r <= pending && job !in r
    ensures forall x :: x in pending && x != job ==> x in r
  {
    if job == null then pending else pending - {job}
  }
}
