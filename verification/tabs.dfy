/** The tab list that both browser activities drive: a sequence of tab records
    with unique ids plus the current-tab reference, and the activities' rules for
    opening, closing, restoring and switching tabs and for the per-tab
    counters that page callbacks update. */
module Tabs {
  import opened Strings
  import opened BrowserPolicy

  /** One browser tab. `adblock` is the per-tab override of the global ad-block
      setting; `hostPopupLevel` is the popup level of its cached host
      configuration. */
  datatype Tab = Tab(id: nat, url: string, selected: bool, incognito: bool,
                     adblock: Option<bool>, blockedAds: nat, blockedPopups: nat,
                     hostPopupLevel: Option<PopupLevel>)

  function Ids(tabs: seq<Tab>): (r: seq<nat>)
    ensures |r| == |tabs| && forall i :: 0 <= i < |tabs| ==> r[i] == tabs[i].id
  {
    seq(|tabs|, i requires 0 <= i < |tabs| => tabs[i].id)
  }

  /** No id occurs twice. */
  ghost predicate Distinct(ids: seq<nat>) {
    forall i, j :: 0 <= i < j < |ids| ==> ids[i] != ids[j]
  }

  ghost predicate UniqueIds(tabs: seq<Tab>) {
    Distinct(Ids(tabs))
  }

  /** `tabs.indexOf(tab)`: the position of the tab with this id, or -1. */
  function Position(tabs: seq<Tab>, id: nat): (r: int)
    ensures -1 <= r < |tabs|
    ensures r >= 0 ==> tabs[r].id == id
    ensures r == -1 <==> id !in Ids(tabs)
  {
    IndexOf(Ids(tabs), id)
  }

  /** A freshId tab as `WebTabState(url, incognito)` creates it. */
  function NewTab(id: nat, url: string, incognito: bool): Tab {
    Tab(id, url, false, incognito, None, 0, 0, None)
  }

  /** `add(index, tab)` on the tab list. */
  function InsertAt(tabs: seq<Tab>, index: nat, t: Tab): (r: seq<Tab>)
    requires index <= |tabs|
    ensures |r| == |tabs| + 1 && r[index] == t
    ensures r[..index] == tabs[..index] && r[index + 1..] == tabs[index..]
  {
    tabs[..index] + [t] + tabs[index..]
  }

  /** `remove(tab)` on the tab list. */
  function RemoveTab(tabs: seq<Tab>, id: nat): (r: seq<Tab>)
    ensures id !in Ids(tabs) ==> r == tabs
    ensures id in Ids(tabs) ==>
              |r| == |tabs| - 1 && r == tabs[..Position(tabs, id)] + tabs[Position(tabs, id) + 1..]
  {
    var p := Position(tabs, id);
    if p == -1 then tabs else tabs[..p] + tabs[p + 1..]
  }

  /** The selection flags after switching to `id`: that tab only. */
  function SelectOnly(tabs: seq<Tab>, id: nat): (r: seq<Tab>)
    ensures |r| == |tabs|
    ensures forall i :: 0 <= i < |tabs| ==> r[i] == tabs[i].(selected := tabs[i].id == id)
  {
    seq(|tabs|, i requires 0 <= i < |tabs| => tabs[i].(selected := tabs[i].id == id))
  }

  /** Replaces the tab that has `t`'s id. */
  function UpdateTab(tabs: seq<Tab>, t: Tab): (r: seq<Tab>)
    ensures |r| == |tabs|
    ensures forall i :: 0 <= i < |tabs| ==> r[i] == if tabs[i].id == t.id then t else tabs[i]
  {
    seq(|tabs|, i requires 0 <= i < |tabs| => if tabs[i].id == t.id then t else tabs[i])
  }

  /** The position of the first tab marked selected, or the length when none is. */
  function FirstSelected(tabs: seq<Tab>): (r: nat)
    ensures r <= |tabs|
    ensures r < |tabs| ==> tabs[r].selected
    ensures forall i :: 0 <= i < r ==> !tabs[i].selected
  {
    if tabs == [] then 0
    else if tabs[0].selected then 0
    else 1 + FirstSelected(tabs[1..])
  }

  /** The tab switched to at start-up: the first tab marked selected, otherwise the first tab. */
  function RestoredIndex(tabs: seq<Tab>): (r: nat)
    requires tabs != []
    ensures r < |tabs|
    ensures (exists i :: 0 <= i < |tabs| && tabs[i].selected) ==>
              tabs[r].selected && forall i :: 0 <= i < r ==> !tabs[i].selected
    ensures (forall i :: 0 <= i < |tabs| ==> !tabs[i].selected) ==> r == 0
  {
    var f := FirstSelected(tabs);
    if f < |tabs| then f else 0
  }

  /** The neighbour `closeTab` switches to: the tab on the left when there is
      one, else the tab on the right (the first tab when `position` is -1). */
  function NeighbourIndex(position: int): (r: int)
    ensures position > 0 ==> r == position - 1
    ensures position <= 0 ==> r == position + 1
  {
    if position > 0 then position - 1 else position + 1
  }

  /** Where `onOpenInNewTabRequested` inserts: right after the current tab, or
      at the end when the current tab is not in the list. */
  function RequestedTabIndex(tabs: seq<Tab>, current: Option<nat>): (r: nat)
    ensures r <= |tabs|
    ensures current.Some? && current.value in Ids(tabs) ==> r == Position(tabs, current.value) + 1
    ensures !(current.Some? && current.value in Ids(tabs)) ==> r == |tabs|
  {
    var index := if current.Some? then Position(tabs, current.value) else -1;
    if index == -1 then |tabs| else index + 1
  }

  /** The ids of the tabs `onTrimMemory` trims: every tab not marked selected, in list order. */
  function UnselectedIds(tabs: seq<Tab>): (r: seq<nat>)
    ensures forall x :: x in r <==> exists i :: 0 <= i < |tabs| && !tabs[i].selected && tabs[i].id == x
    ensures |r| <= |tabs|
  {
    if tabs == [] then []
    else (if tabs[0].selected then [] else [tabs[0].id]) + UnselectedIds(tabs[1..])
  }

  /** `tabByTitleIndex(index)`: the tab at a valid title index, else nothing. */
  function TabByTitleIndex(tabs: seq<Tab>, index: int): (r: Option<Tab>)
    ensures r.Some? <==> 0 <= index < |tabs|
    ensures r.Some? ==> r.value == tabs[index]
  {
    if index >= 0 && index < |tabs| then Some(tabs[index]) else None
  }

  /** The URL a tab shows after a page starts: the engine's URL, else the URL
      the callback reported, else the one it had. */
  function PageStartUrl(engineUrl: Option<string>, callbackUrl: Option<string>, previous: string): (r: string)
    ensures engineUrl.Some? ==> r == engineUrl.value
    ensures engineUrl.None? && callbackUrl.Some? ==> r == callbackUrl.value
    ensures engineUrl.None? && callbackUrl.None? ==> r == previous
  {
    engineUrl.GetOr(callbackUrl.GetOr(previous))
  }

  lemma InsertAtIds(tabs: seq<Tab>, index: nat, t: Tab)
    requires index <= |tabs|
    ensures Ids(InsertAt(tabs, index, t)) == Ids(tabs)[..index] + [t.id] + Ids(tabs)[index..]
  {
    var r := InsertAt(tabs, index, t);
    assert forall i :: 0 <= i < |r| ==> Ids(r)[i] == (Ids(tabs)[..index] + [t.id] + Ids(tabs)[index..])[i];
  }

  lemma SelectOnlyIds(tabs: seq<Tab>, id: nat)
    ensures Ids(SelectOnly(tabs, id)) == Ids(tabs)
  {
    assert forall i :: 0 <= i < |tabs| ==> Ids(SelectOnly(tabs, id))[i] == Ids(tabs)[i];
  }

  lemma UpdateTabIds(tabs: seq<Tab>, t: Tab)
    ensures Ids(UpdateTab(tabs, t)) == Ids(tabs)
  {
    assert forall i :: 0 <= i < |tabs| ==> Ids(UpdateTab(tabs, t))[i] == Ids(tabs)[i];
  }

  lemma RemoveTabIds(tabs: seq<Tab>, id: nat)
    ensures Ids(RemoveTab(tabs, id)) == RemoveFirst(Ids(tabs), id)
  {
    if id in Ids(tabs) {
      var p := Position(tabs, id);
      var r := RemoveTab(tabs, id);
      assert forall i :: 0 <= i < |r| ==> Ids(r)[i] == (Ids(tabs)[..p] + Ids(tabs)[p + 1..])[i];
    }
  }

  /** Inserting an id that does not occur keeps the ids distinct. */
  lemma DistinctInsert(ids: seq<nat>, index: nat, x: nat)
    requires Distinct(ids) && x !in ids && index <= |ids|
    ensures Distinct(ids[..index] + [x] + ids[index..])
  {
    var r := ids[..index] + [x] + ids[index..];
    forall i, j | 0 <= i < j < |r| ensures r[i] != r[j] {
      if i < index && j > index { assert r[j] == ids[j - 1]; }
      else if i > index { assert r[i] == ids[i - 1] && r[j] == ids[j - 1]; }
      else if i < index && j < index { }
      else if i == index { assert r[j] == ids[j - 1]; }
      else { assert r[i] == ids[i]; }
    }
  }

  /** Removing an id keeps the other ids, in order, and drops its single occurrence. */
  lemma DistinctRemove(ids: seq<nat>, x: nat)
    requires Distinct(ids)
    ensures Distinct(RemoveFirst(ids, x))
    ensures x !in RemoveFirst(ids, x)
    ensures forall y :: y != x ==> (y in RemoveFirst(ids, x) <==> y in ids)
  {
    if x in ids {
      var p := IndexOf(ids, x);
      var r := RemoveFirst(ids, x);
      assert forall k :: 0 <= k < |r| ==> r[k] == ids[if k < p then k else k + 1];
      forall y | y != x && y in ids ensures y in r {
        var k :| 0 <= k < |ids| && ids[k] == y;
        assert r[if k < p then k else k - 1] == y;
      }
    }
  }

  /** The id of the tab `closeTab` switches to in a list of two or more. */
  function NeighbourId(tabs: seq<Tab>, id: nat): (r: nat)
    requires |tabs| >= 2
    ensures r in Ids(tabs)
  {
    var n := NeighbourIndex(Position(tabs, id));
    tabs[n].id
  }

  /** The list after `closeTab(tab)` on a non-empty list: the neighbour is
      selected and the tab removed; a one-tab list first gets a home tab with
      `freshId` at index 0 when its view can be created. */
  function TabsAfterClose(tabs: seq<Tab>, id: nat, freshId: nat, homePage: string, incognito: bool,
                          viewOk: bool): seq<Tab>
    requires tabs != []
  {
    if |tabs| >= 2 then RemoveTab(SelectOnly(tabs, NeighbourId(tabs, id)), id)
    else if viewOk then RemoveTab(SelectOnly(InsertAt(tabs, 0, NewTab(freshId, homePage, incognito)), freshId), id)
    else RemoveTab(tabs, id)
  }

  /** The current tab after `closeTab(tab)` on a non-empty list. */
  function CurrentAfterClose(tabs: seq<Tab>, current: Option<nat>, id: nat, freshId: nat, viewOk: bool)
    : Option<nat>
    requires tabs != []
  {
    if |tabs| >= 2 then Some(NeighbourId(tabs, id))
    else if viewOk then Some(freshId)
    else if current == Some(id) then None
    else current
  }

  /** Closing the only tab when a home tab opens: the ids are the home tab's
      followed by the old one, with the closed id removed. */
  lemma CloseOnlyIds(tabs: seq<Tab>, id: nat, freshId: nat, homePage: string, incognito: bool)
    requires |tabs| == 1
    ensures Ids(TabsAfterClose(tabs, id, freshId, homePage, incognito, true)) == RemoveFirst([freshId] + Ids(tabs), id)
  {
    var t := NewTab(freshId, homePage, incognito);
    var base := InsertAt(tabs, 0, t);
    InsertAtIds(tabs, 0, t);
    assert Ids(tabs)[..0] + [freshId] + Ids(tabs)[0..] == [freshId] + Ids(tabs);
    SelectOnlyIds(base, freshId);
    RemoveTabIds(SelectOnly(base, freshId), id);
  }

  /** Removing a tab keeps the ids distinct and below `bound`, and keeps any other id. */
  lemma RemoveKeepsOthersValid(tabs: seq<Tab>, id: nat, bound: nat, other: nat)
    requires UniqueIds(tabs) && (forall x :: x in Ids(tabs) ==> x < bound)
    requires other in Ids(tabs) && other != id
    ensures var r := RemoveTab(tabs, id);
            UniqueIds(r) && (forall x :: x in Ids(r) ==> x < bound) && other in Ids(r)
  {
    RemoveTabIds(tabs, id);
    DistinctRemove(Ids(tabs), id);
  }

  /** In a list whose only selected tab has id `sel`, removing another id
      leaves `sel` the only selected tab. */
  lemma RemoveKeepsSelection(tabs: seq<Tab>, sel: nat, id: nat)
    requires forall i :: 0 <= i < |tabs| ==> (tabs[i].selected <==> tabs[i].id == sel)
    ensures forall i :: 0 <= i < |RemoveTab(tabs, id)| ==>
              (RemoveTab(tabs, id)[i].selected <==> RemoveTab(tabs, id)[i].id == sel)
  {
    var r := RemoveTab(tabs, id);
    if id in Ids(tabs) {
      var p := Position(tabs, id);
      assert forall i :: 0 <= i < |r| ==> r[i] == tabs[if i < p then i else i + 1];
    }
  }

  /** Closing a tab that is not the fresh home tab, among distinct ids: the
      closed tab is gone, the new current tab is in the list, and it is the
      only tab marked selected. */
  lemma {:induction false} CloseSelectsCurrentOnly(tabs: seq<Tab>, current: Option<nat>, id: nat, freshId: nat,
                                                  homePage: string, incognito: bool, viewOk: bool)
    requires tabs != [] && UniqueIds(tabs) && freshId !in Ids(tabs) && id != freshId
    requires |tabs| >= 2 || viewOk
    ensures var r := TabsAfterClose(tabs, id, freshId, homePage, incognito, viewOk);
            var c := CurrentAfterClose(tabs, current, id, freshId, viewOk);
            && id !in Ids(r) && c.Some? && c.value in Ids(r)
            && forall i :: 0 <= i < |r| ==> (r[i].selected <==> r[i].id == c.value)
  {
    if |tabs| >= 2 {
      CloseKeepsNeighbour(tabs, id);
      SelectThenRemove(tabs, NeighbourId(tabs, id), id);
    } else {
      var base := InsertAt(tabs, 0, NewTab(freshId, homePage, incognito));
      InsertAtIds(tabs, 0, NewTab(freshId, homePage, incognito));
      DistinctInsert(Ids(tabs), 0, freshId);
      assert Ids(tabs)[..0] + [freshId] + Ids(tabs)[0..] == [freshId] + Ids(tabs);
      assert freshId in RemoveFirst(Ids(base), id) by {
        DistinctRemove(Ids(base), id);
        assert Ids(base)[0] == freshId;
      }
      SelectThenRemove(base, freshId, id);
    }
  }

  /** Selecting `sel` and then removing another id, among distinct ids: `id`
      is gone, `sel` stays, and it is the only tab marked selected. */
  lemma SelectThenRemove(base: seq<Tab>, sel: nat, id: nat)
    requires UniqueIds(base) && sel in RemoveFirst(Ids(base), id)
    ensures var r := RemoveTab(SelectOnly(base, sel), id);
            && id !in Ids(r) && sel in Ids(r)
            && forall i :: 0 <= i < |r| ==> (r[i].selected <==> r[i].id == sel)
  {
    var s := SelectOnly(base, sel);
    SelectOnlyIds(base, sel);
    RemoveTabIds(s, id);
    DistinctRemove(Ids(s), id);
    RemoveKeepsSelection(s, sel, id);
  }

  /** Opening a tab with a fresh id and switching to it, among distinct ids:
      the ids stay distinct, the new id sits at the index, and the new tab is
      the only one marked selected. */
  lemma OpenSelectsNewOnly(tabs: seq<Tab>, index: nat, t: Tab)
    requires UniqueIds(tabs) && t.id !in Ids(tabs) && index <= |tabs|
    ensures var r := SelectOnly(InsertAt(tabs, index, t), t.id);
            && UniqueIds(r)
            && Ids(r) == Ids(tabs)[..index] + [t.id] + Ids(tabs)[index..]
            && r[index] == t.(selected := true)
            && forall i :: 0 <= i < |r| ==> (r[i].selected <==> i == index)
  {
    var base := InsertAt(tabs, index, t);
    InsertAtIds(tabs, index, t);
    DistinctInsert(Ids(tabs), index, t.id);
    SelectOnlyIds(base, t.id);
  }

  /** A tab is opened at start-up: there is an intent URL or no restored tab,
      and the view can be created. */
  predicate OpensTab(tabs: seq<Tab>, intentUrl: Option<string>, viewOk: bool) {
    viewOk && (intentUrl.Some? || tabs == [])
  }

  /** The list after start-up: with no intent URL, the home page in a new tab
      at index 0 when the list is empty, else the first selected tab (or the
      first tab) selected; with one, a new tab for it at the end. */
  function StartTabs(tabs: seq<Tab>, intentUrl: Option<string>, homePage: string, viewOk: bool,
                     incognito: bool, freshId: nat): seq<Tab>
  {
    if intentUrl.None? && tabs != [] then SelectOnly(tabs, tabs[RestoredIndex(tabs)].id)
    else if !viewOk then tabs
    else
      var index := if intentUrl.None? then 0 else |tabs|;
      SelectOnly(InsertAt(tabs, index, NewTab(freshId, intentUrl.GetOr(homePage), incognito)), freshId)
  }

  /** The current tab after start-up. */
  function StartCurrent(tabs: seq<Tab>, current: Option<nat>, intentUrl: Option<string>, viewOk: bool,
                        freshId: nat): Option<nat>
  {
    if intentUrl.None? && tabs != [] then Some(tabs[RestoredIndex(tabs)].id)
    else if viewOk then Some(freshId)
    else current
  }

  /** The page loads start-up asks for: the opened tab's URL, if one was opened. */
  function StartLoads(tabs: seq<Tab>, intentUrl: Option<string>, homePage: string, viewOk: bool,
                      freshId: nat): seq<(nat, string)>
  {
    if OpensTab(tabs, intentUrl, viewOk) then [(freshId, intentUrl.GetOr(homePage))] else []
  }

  /** Whenever start-up chooses a tab, it is in the list and it is the only
      tab marked selected; the ids are those restored, plus the opened tab's
      id (first for the home page, last for an intent URL). */
  lemma {:induction false} StartSelectsCurrentOnly(tabs: seq<Tab>, current: Option<nat>, intentUrl: Option<string>,
                                                  homePage: string, viewOk: bool, incognito: bool, freshId: nat)
    requires viewOk || (intentUrl.None? && tabs != [])
    ensures var r := StartTabs(tabs, intentUrl, homePage, viewOk, incognito, freshId);
            var c := StartCurrent(tabs, current, intentUrl, viewOk, freshId);
            && c.Some? && c.value in Ids(r)
            && (forall i :: 0 <= i < |r| ==> (r[i].selected <==> r[i].id == c.value))
            && Ids(r) == (if !OpensTab(tabs, intentUrl, viewOk) then Ids(tabs)
                          else if intentUrl.None? then [freshId] + Ids(tabs)
                          else Ids(tabs) + [freshId])
  {
    var r := StartTabs(tabs, intentUrl, homePage, viewOk, incognito, freshId);
    if intentUrl.None? && tabs != [] {
      var k := RestoredIndex(tabs);
      SelectOnlyIds(tabs, tabs[k].id);
      assert Ids(r)[k] == tabs[k].id;
    } else {
      var index := if intentUrl.None? then 0 else |tabs|;
      var t := NewTab(freshId, intentUrl.GetOr(homePage), incognito);
      InsertAtIds(tabs, index, t);
      SelectOnlyIds(InsertAt(tabs, index, t), freshId);
      assert Ids(r)[index] == freshId;
      assert Ids(tabs)[..|tabs|] == Ids(tabs) && Ids(tabs)[|tabs|..] == [];
    }
  }

  /** The tab state of the browser activities. The engine-level effects of a
      tab switch are left out; what is kept is the list, the current tab, the URLs
      loaded and the overlay-menu requests. */
  class BrowserTabs {
    var tabs: seq<Tab>
    var current: Option<nat>
    /** Next id for a tab this activity creates. */
    var nextId: nat
    /** `loadUrl` requests, as (tab id, URL). */
    var loads: seq<(nat, string)>
    /** `toggleMenu` requests of the overlay. */
    var menuToggles: nat
    /** `showMenuOverlay` / `hideMenuOverlay` requests of the legacy overlay. */
    var menuShows: nat
    var menuHides: nat
    /** The last ad-block statistics shown: (enabled, blocked ads, blocked popups). */
    var shownAdBlockStats: Option<(bool, nat, nat)>

    ghost predicate Valid()
      reads this`tabs, this`current, this`nextId
    {
      && UniqueIds(tabs)
      && (forall x :: x in Ids(tabs) ==> x < nextId)
      && (current.Some? ==> current.value in Ids(tabs))
    }

    /** The restored list, as the tab repository hands it over. */
    constructor (restored: seq<Tab>)
      requires UniqueIds(restored)
      ensures Valid()
      ensures tabs == restored && current == None
      ensures loads == [] && menuToggles == 0 && menuShows == 0 && menuHides == 0
      ensures shownAdBlockStats == None
    {
      tabs := restored;
      current := None;
      nextId := MaxId(restored) + 1;
      loads := [];
      menuToggles := 0;
      menuShows := 0;
      menuHides := 0;
      shownAdBlockStats := None;
    }

    /** The tab the current-tab reference designates. */
    function CurrentTab(): (r: Option<Tab>)
      reads this`tabs, this`current, this`nextId
      requires Valid()
      ensures current.None? ==> r.None?
      ensures current.Some? ==> r.Some? && r.value in tabs && r.value.id == current.value
    {
      if current.None? then None else Some(tabs[Position(tabs, current.value)])
    }

    /** `changeTab(tab)`: the tab becomes current and the only selected one. */
    method ChangeTab(id: nat)
      requires Valid() && id in Ids(tabs)
      modifies this`tabs, this`current
      ensures Valid()
      ensures tabs == SelectOnly(old(tabs), id) && Ids(tabs) == Ids(old(tabs))
      ensures current == Some(id)
    {
      SelectOnlyIds(tabs, id);
      tabs := SelectOnly(tabs, id);
      current := Some(id);
    }

    /** `addNewTab(tab, index)` followed by `changeTab(tab)` for a freshId tab. */
    method AddAndSelect(index: nat, url: string, incognito: bool) returns (id: nat)
      requires Valid() && index <= |tabs|
      modifies this`tabs, this`current, this`nextId
      ensures Valid()
      ensures id == old(nextId) && nextId == id + 1
      ensures tabs == SelectOnly(InsertAt(old(tabs), index, NewTab(id, url, incognito)), id)
      ensures Ids(tabs) == Ids(old(tabs))[..index] + [id] + Ids(old(tabs))[index..]
      ensures current == Some(id)
    {
      id := nextId;
      var t := NewTab(id, url, incognito);
      ghost var ids := Ids(tabs);
      InsertAtIds(tabs, index, t);
      DistinctInsert(ids, index, id);
      assert ids == ids[..index] + ids[index..];
      tabs := InsertAt(tabs, index, t);
      nextId := nextId + 1;
      assert forall x :: x in Ids(tabs) ==> x in ids || x == id;
      ChangeTab(id);
    }

    /** `onCloseTab(tab)`: the tab leaves the list; the current tab is cleared when it was that tab. */
    method RemoveFromList(id: nat)
      requires Valid()
      modifies this`tabs, this`current
      ensures Valid()
      ensures tabs == RemoveTab(old(tabs), id)
      ensures Ids(tabs) == RemoveFirst(Ids(old(tabs)), id)
      ensures current == if old(current) == Some(id) then None else old(current)
    {
      ghost var ids := Ids(tabs);
      RemoveTabIds(tabs, id);
      DistinctRemove(ids, id);
      tabs := RemoveTab(tabs, id);
      if current == Some(id) {
        current := None;
      }
    }

    /** `openInNewTab(url, index, navigateImmediately, needToHideMenuOverlay)`
        of the current activity. `viewOk` says whether creating the tab's view
        succeeded; the new tab's id is returned when one was added. */
    method OpenInNewTab(url: Option<string>, index: nat, viewOk: bool, incognito: bool,
                        navigateImmediately: bool, hideMenu: bool)
      returns (newTabId: Option<nat>)
      requires Valid() && index <= |tabs|
      modifies this
      ensures Valid()
      ensures menuShows == old(menuShows) && menuHides == old(menuHides)
      ensures shownAdBlockStats == old(shownAdBlockStats)
      ensures url.None? || !viewOk ==>
                newTabId == None && tabs == old(tabs) && current == old(current) && nextId == old(nextId)
                && loads == old(loads) && menuToggles == old(menuToggles)
      ensures url.Some? && viewOk ==>
                && newTabId == Some(old(nextId))
                && tabs == SelectOnly(InsertAt(old(tabs), index, NewTab(old(nextId), url.value, incognito)), old(nextId))
                && Ids(tabs) == Ids(old(tabs))[..index] + [old(nextId)] + Ids(old(tabs))[index..]
                && current == newTabId && nextId == old(nextId) + 1
                && loads == old(loads) + (if navigateImmediately then [(old(nextId), url.value)] else [])
                && menuToggles == old(menuToggles) + (if hideMenu then 1 else 0)
    {
      if url.None? || !viewOk {
        return None;
      }
      var id := AddAndSelect(index, url.value, incognito);
      if navigateImmediately {
        // navigate(url) on the current tab, which is the new one: its URL is already `url`
        loads := loads + [(id, url.value)];
      }
      if hideMenu {
        menuToggles := menuToggles + 1;
      }
      newTabId := Some(id);
    }

    /** The legacy `openInNewTab`: the same tab effects; the overlay is hidden afterwards. */
    method LegacyOpenInNewTab(url: string, index: nat, viewOk: bool, incognito: bool)
      returns (newTabId: Option<nat>)
      requires Valid() && index <= |tabs|
      modifies this
      ensures Valid()
      ensures menuShows == old(menuShows) && menuToggles == old(menuToggles)
      ensures shownAdBlockStats == old(shownAdBlockStats)
      ensures !viewOk ==> newTabId == None && tabs == old(tabs) && current == old(current) && nextId == old(nextId)
                          && loads == old(loads) && menuHides == old(menuHides)
      ensures viewOk ==>
                && newTabId == Some(old(nextId))
                && tabs == SelectOnly(InsertAt(old(tabs), index, NewTab(old(nextId), url, incognito)), old(nextId))
                && Ids(tabs) == Ids(old(tabs))[..index] + [old(nextId)] + Ids(old(tabs))[index..]
                && current == newTabId && nextId == old(nextId) + 1
                && loads == old(loads) + [(old(nextId), url)]
                && menuHides == old(menuHides) + 1
    {
      if !viewOk {
        return None;
      }
      var id := AddAndSelect(index, url, incognito);
      loads := loads + [(id, url)];
      menuHides := menuHides + 1;
      newTabId := Some(id);
    }

    /** `closeTab` on a list of two or more tabs: switch to the neighbour, then remove. */
    method CloseAmongMany(id: nat)
      requires Valid() && |tabs| >= 2
      modifies this`tabs, this`current
      ensures Valid()
      ensures Ids(tabs) == RemoveFirst(Ids(old(tabs)), id)
      ensures tabs == RemoveTab(SelectOnly(old(tabs), NeighbourId(old(tabs), id)), id)
      ensures current == Some(NeighbourId(old(tabs), id))
    {
      var position := Position(tabs, id);
      var n := NeighbourIndex(position);
      CloseKeepsNeighbour(tabs, id);
      var next := tabs[n].id;
      ChangeTab(next);
      RemoveFromList(id);
    }

    /** Opens the home page at index 0 the way the activity (`legacy` or not) does. */
    method OpenHomeFirst(homePage: string, viewOk: bool, incognito: bool, legacy: bool)
      requires Valid()
      modifies this
      ensures Valid()
      ensures shownAdBlockStats == old(shownAdBlockStats) && menuShows == old(menuShows)
      ensures menuToggles == old(menuToggles) + (if viewOk && !legacy then 1 else 0)
      ensures menuHides == old(menuHides) + (if viewOk && legacy then 1 else 0)
      ensures viewOk ==> tabs == SelectOnly(InsertAt(old(tabs), 0, NewTab(old(nextId), homePage, incognito)), old(nextId))
                         && Ids(tabs) == [old(nextId)] + Ids(old(tabs)) && current == Some(old(nextId))
                         && loads == old(loads) + [(old(nextId), homePage)] && nextId == old(nextId) + 1
      ensures !viewOk ==> tabs == old(tabs) && current == old(current) && loads == old(loads)
                          && nextId == old(nextId)
    {
      // inserting at 0 as a list identity, which the id clause needs
      ghost var ids := Ids(tabs);
      assert ids[..0] + [nextId] + ids[0..] == [nextId] + ids;
      if legacy {
        var _ := LegacyOpenInNewTab(homePage, 0, viewOk, incognito);
      } else {
        var _ := OpenInNewTab(Some(homePage), 0, viewOk, incognito, true, true);
      }
    }

    /** `closeTab` on a one-tab list: a home-page tab is opened at index 0 first,
        then the closed tab is removed. */
    method CloseOnlyTab(id: nat, homePage: string, viewOk: bool, incognito: bool, legacy: bool)
      requires Valid() && |tabs| == 1 && id < nextId
      modifies this
      ensures Valid()
      ensures shownAdBlockStats == old(shownAdBlockStats) && menuShows == old(menuShows)
      ensures menuToggles == old(menuToggles) + (if viewOk && !legacy then 1 else 0)
      ensures menuHides == old(menuHides) + (if viewOk && legacy then 1 else 0)
      ensures tabs == TabsAfterClose(old(tabs), id, old(nextId), homePage, incognito, viewOk)
      ensures nextId == old(nextId) + (if viewOk then 1 else 0)
      ensures viewOk ==>
                && Ids(tabs) == RemoveFirst([old(nextId)] + Ids(old(tabs)), id)
                && current == Some(old(nextId))
                && loads == old(loads) + [(old(nextId), homePage)]
      ensures !viewOk ==>
                && Ids(tabs) == RemoveFirst(Ids(old(tabs)), id)
                && current == (if old(current) == Some(id) then None else old(current))
                && loads == old(loads)
    {
      if viewOk {
        CloseOnlyIds(tabs, id, nextId, homePage, incognito);
        CloseOnlyTabOpeningHome(id, homePage, incognito, legacy);
      } else {
        OpenHomeFirst(homePage, false, incognito, legacy);
        RemoveFromList(id);
      }
    }

    /** `closeTab` on a one-tab list when the home tab's view can be created. */
    method CloseOnlyTabOpeningHome(id: nat, homePage: string, incognito: bool, legacy: bool)
      requires Valid() && |tabs| == 1 && id < nextId
      modifies this
      ensures Valid()
      ensures shownAdBlockStats == old(shownAdBlockStats) && menuShows == old(menuShows)
      ensures menuToggles == old(menuToggles) + (if !legacy then 1 else 0)
      ensures menuHides == old(menuHides) + (if legacy then 1 else 0)
      ensures tabs == TabsAfterClose(old(tabs), id, old(nextId), homePage, incognito, true)
      ensures nextId == old(nextId) + 1
      ensures current == Some(old(nextId))
      ensures loads == old(loads) + [(old(nextId), homePage)]
    {
      ghost var t0, n0 := tabs, nextId;
      OpenHomeFirst(homePage, true, incognito, legacy);
      assert tabs == SelectOnly(InsertAt(t0, 0, NewTab(n0, homePage, incognito)), n0);
      RemoveKeepsOthersValid(tabs, id, nextId, n0);
      // `onCloseTab(tab)`, as in RemoveFromList; the current tab is the home
      // tab, whose id is not `id`, so the current reference stays
      tabs := RemoveTab(tabs, id);
    }

    /** The list effect of `closeTab(tab)` shared by both activities. Returns
        true when the code indexes past the list (closing a tab that is not in
        an empty list), in which case nothing changes. */
    method CloseTabCore(id: nat, homePage: string, viewOk: bool, incognito: bool, legacy: bool)
      returns (crashed: bool)
      requires Valid() && id < nextId
      modifies this
      ensures Valid()
      ensures shownAdBlockStats == old(shownAdBlockStats) && menuShows == old(menuShows)
      ensures var opensHome := |old(tabs)| == 1 && viewOk;
              && menuToggles == old(menuToggles) + (if opensHome && !legacy then 1 else 0)
              && menuHides == old(menuHides) + (if opensHome && legacy then 1 else 0)
      ensures crashed <==> old(tabs) == []
      ensures crashed ==> tabs == old(tabs) && current == old(current) && nextId == old(nextId) && loads == old(loads)
      ensures !crashed ==>
                && tabs == TabsAfterClose(old(tabs), id, old(nextId), homePage, incognito, viewOk)
                && current == CurrentAfterClose(old(tabs), old(current), id, old(nextId), viewOk)
                && nextId == old(nextId) + (if |old(tabs)| == 1 && viewOk then 1 else 0)
      ensures |old(tabs)| >= 2 ==>
                && Ids(tabs) == RemoveFirst(Ids(old(tabs)), id)
                && current == Some(old(tabs)[NeighbourIndex(Position(old(tabs), id))].id)
                && loads == old(loads)
      ensures |old(tabs)| == 1 && viewOk ==>
                && Ids(tabs) == RemoveFirst([old(nextId)] + Ids(old(tabs)), id)
                && current == Some(old(nextId))
                && loads == old(loads) + [(old(nextId), homePage)]
      ensures |old(tabs)| == 1 && !viewOk ==>
                && Ids(tabs) == RemoveFirst(Ids(old(tabs)), id)
                && current == (if old(current) == Some(id) then None else old(current))
                && loads == old(loads)
    {
      if |tabs| == 0 {
        // the closed tab is not in the empty list: `tabs[position + 1]` is `tabs[0]`
        return true;
      }
      crashed := false;
      if |tabs| == 1 {
        CloseOnlyTab(id, homePage, viewOk, incognito, legacy);
      } else {
        CloseAmongMany(id);
      }
    }

    /** `closeTab(tab)` of the current activity: a null tab is ignored; after the
        list effect the overlay menu is toggled. */
    method CloseTab(tab: Option<nat>, homePage: string, viewOk: bool, incognito: bool)
      returns (crashed: bool)
      requires Valid() && (tab.Some? ==> tab.value < nextId)
      modifies this
      ensures Valid()
      ensures shownAdBlockStats == old(shownAdBlockStats) && menuShows == old(menuShows) && menuHides == old(menuHides)
      ensures tab.None? || old(tabs) == [] ==>
                tabs == old(tabs) && current == old(current) && nextId == old(nextId)
                && menuToggles == old(menuToggles) && loads == old(loads)
      ensures tab.None? ==> !crashed
      ensures tab.Some? ==> (crashed <==> old(tabs) == [])
      ensures tab.Some? && old(tabs) != [] ==>
                var opensHome := |old(tabs)| == 1 && viewOk;
                && tabs == TabsAfterClose(old(tabs), tab.value, old(nextId), homePage, incognito, viewOk)
                && current == CurrentAfterClose(old(tabs), old(current), tab.value, old(nextId), viewOk)
                && nextId == old(nextId) + (if opensHome then 1 else 0)
                && loads == old(loads) + (if opensHome then [(old(nextId), homePage)] else [])
                && menuToggles == old(menuToggles) + (if opensHome then 2 else 1)
      ensures tab.Some? && |old(tabs)| >= 2 ==>
                var p := Position(old(tabs), tab.value);
                && Ids(tabs) == RemoveFirst(Ids(old(tabs)), tab.value)
                && current == Some(old(tabs)[NeighbourIndex(p)].id)
      ensures tab.Some? && |old(tabs)| == 1 && viewOk ==>
                && Ids(tabs) == RemoveFirst([old(nextId)] + Ids(old(tabs)), tab.value)
                && current == Some(old(nextId))
    {
      crashed := false;
      if tab.None? {
        return;
      }
      // the toggle follows the list effect, which fails exactly on an empty list
      if tabs != [] {
        menuToggles := menuToggles + 1;
      }
      crashed := CloseTabCore(tab.value, homePage, viewOk, incognito, false);
    }

    /** The legacy `closeTab(tab)`: the same list effect, then the overlay is hidden. */
    method LegacyCloseTab(tab: Option<nat>, homePage: string, viewOk: bool, incognito: bool)
      returns (crashed: bool)
      requires Valid() && (tab.Some? ==> tab.value < nextId)
      modifies this
      ensures Valid()
      ensures shownAdBlockStats == old(shownAdBlockStats) && menuShows == old(menuShows)
      ensures menuToggles == old(menuToggles)
      ensures tab.None? || old(tabs) == [] ==>
                tabs == old(tabs) && current == old(current) && nextId == old(nextId)
                && menuHides == old(menuHides) && loads == old(loads)
      ensures tab.None? ==> !crashed
      ensures tab.Some? ==> (crashed <==> old(tabs) == [])
      ensures tab.Some? && old(tabs) != [] ==>
                var opensHome := |old(tabs)| == 1 && viewOk;
                && tabs == TabsAfterClose(old(tabs), tab.value, old(nextId), homePage, incognito, viewOk)
                && current == CurrentAfterClose(old(tabs), old(current), tab.value, old(nextId), viewOk)
                && nextId == old(nextId) + (if opensHome then 1 else 0)
                && loads == old(loads) + (if opensHome then [(old(nextId), homePage)] else [])
                && menuHides == old(menuHides) + (if opensHome then 2 else 1)
      ensures tab.Some? && |old(tabs)| >= 2 ==>
                var p := Position(old(tabs), tab.value);
                && Ids(tabs) == RemoveFirst(Ids(old(tabs)), tab.value)
                && current == Some(old(tabs)[NeighbourIndex(p)].id)
      ensures tab.Some? && |old(tabs)| == 1 && viewOk ==>
                && Ids(tabs) == RemoveFirst([old(nextId)] + Ids(old(tabs)), tab.value)
                && current == Some(old(nextId))
    {
      crashed := false;
      if tab.None? {
        return;
      }
      if tabs != [] {
        menuHides := menuHides + 1;
      }
      crashed := CloseTabCore(tab.value, homePage, viewOk, incognito, true);
    }

    /** `navigate(url)`: loads in the current tab, or opens a tab at index 0 when there is none. */
    method Navigate(url: string, viewOk: bool, incognito: bool)
      requires Valid()
      modifies this
      ensures Valid()
      ensures menuShows == old(menuShows) && menuHides == old(menuHides)
      ensures shownAdBlockStats == old(shownAdBlockStats)
      ensures old(current).Some? ==>
                && current == old(current) && Ids(tabs) == Ids(old(tabs))
                && tabs == UpdateTab(old(tabs), old(CurrentTab()).value.(url := url))
                && loads == old(loads) + [(old(current).value, url)]
                && nextId == old(nextId) && menuToggles == old(menuToggles)
      ensures old(current).None? && viewOk ==>
                && current == Some(old(nextId))
                && tabs == SelectOnly(InsertAt(old(tabs), 0, NewTab(old(nextId), url, incognito)), old(nextId))
                && Ids(tabs) == [old(nextId)] + Ids(old(tabs))
                && loads == old(loads) + [(old(nextId), url)]
                && nextId == old(nextId) + 1 && menuToggles == old(menuToggles) + 1
      ensures old(current).None? && !viewOk ==>
                && tabs == old(tabs) && current == None && loads == old(loads)
                && nextId == old(nextId) && menuToggles == old(menuToggles)
    {
      if current.Some? {
        LoadInCurrentTab(url);
      } else {
        // inserting at 0 as a list identity, which the id clause needs
        ghost var ids := Ids(tabs);
        assert ids[..0] + [nextId] + ids[0..] == [nextId] + ids;
        var _ := OpenInNewTab(Some(url), 0, viewOk, incognito, true, true);
      }
    }

    /** The first branch of `navigate(url)`: the current tab takes the URL and loads it. */
    method LoadInCurrentTab(url: string)
      requires Valid() && current.Some?
      modifies this`tabs, this`loads
      ensures Valid()
      ensures Ids(tabs) == Ids(old(tabs))
      ensures tabs == UpdateTab(old(tabs), old(CurrentTab()).value.(url := url))
      ensures loads == old(loads) + [(current.value, url)]
    {
      var cur := CurrentTab();
      var before := tabs;
      tabs := UpdateTab(tabs, cur.value.(url := url));
      UpdateTabIds(before, cur.value.(url := url));
      loads := loads + [(cur.value.id, url)];
    }

    /** `search(text)` of the current activity: a web address is loaded as
        `AddressFor` gives it, other text through the search engine's URL with
        the encoded text in place of the placeholder; an encoding failure
        changes nothing. */
    method Search(text: string, webUrlMatches: bool, encoded: Option<string>, searchEngineUrl: string,
                  viewOk: bool, incognito: bool)
      returns (outcome: SearchOutcome)
      requires Valid()
      modifies this
      ensures Valid()
      ensures outcome == BrowserPolicy.Search(text, webUrlMatches, encoded, searchEngineUrl)
      ensures LooksLikeUrl(text, webUrlMatches) ==> outcome == NavigateTo(AddressFor(text))
      ensures !LooksLikeUrl(text, webUrlMatches) && encoded.Some? ==>
                outcome == NavigateTo(ReplaceAll(searchEngineUrl, "[query]", encoded.value))
      ensures menuShows == old(menuShows) && menuHides == old(menuHides)
      ensures shownAdBlockStats == old(shownAdBlockStats)
      ensures outcome == EncodingError || (old(current).None? && !viewOk) ==>
                && tabs == old(tabs) && current == old(current) && loads == old(loads)
                && nextId == old(nextId) && menuToggles == old(menuToggles)
      ensures outcome.NavigateTo? && old(current).Some? ==>
                && current == old(current)
                && tabs == UpdateTab(old(tabs), old(CurrentTab()).value.(url := outcome.url))
                && loads == old(loads) + [(old(current).value, outcome.url)]
                && nextId == old(nextId) && menuToggles == old(menuToggles)
      ensures outcome.NavigateTo? && old(current).None? && viewOk ==>
                && current == Some(old(nextId))
                && tabs == SelectOnly(InsertAt(old(tabs), 0, NewTab(old(nextId), outcome.url, incognito)), old(nextId))
                && loads == old(loads) + [(old(nextId), outcome.url)]
                && nextId == old(nextId) + 1 && menuToggles == old(menuToggles) + 1
    {
      outcome := BrowserPolicy.Search(text, webUrlMatches, encoded, searchEngineUrl);
      if outcome.NavigateTo? {
        Navigate(outcome.url, viewOk, incognito);
      }
    }

    /** Start-up of the current activity: the tab choice of `StartTab`, then
        the overlay menu is toggled when no tab is current or the current one
        shows the home page. */
    method LoadState(intentUrl: Option<string>, homePage: string, viewOk: bool, incognito: bool)
      requires Valid()
      modifies this
      ensures Valid()
      ensures menuShows == old(menuShows) && menuHides == old(menuHides)
      ensures shownAdBlockStats == old(shownAdBlockStats)
      ensures tabs == StartTabs(old(tabs), intentUrl, homePage, viewOk, incognito, old(nextId))
      ensures current == StartCurrent(old(tabs), old(current), intentUrl, viewOk, old(nextId))
      ensures loads == old(loads) + StartLoads(old(tabs), intentUrl, homePage, viewOk, old(nextId))
      ensures nextId == old(nextId) + (if OpensTab(old(tabs), intentUrl, viewOk) then 1 else 0)
      ensures menuToggles == old(menuToggles) + (if OpensTab(old(tabs), intentUrl, viewOk) then 1 else 0)
                             + (if current.None? || CurrentTab().value.url == homePage then 1 else 0)
    {
      StartTab(intentUrl, homePage, viewOk, incognito);
      ToggleMenuOnHome(homePage);
    }

    /** The tab choice at start-up, as `StartTabs` and `StartCurrent` give it. */
    method StartTab(intentUrl: Option<string>, homePage: string, viewOk: bool, incognito: bool)
      requires Valid()
      modifies this
      ensures Valid()
      ensures menuShows == old(menuShows) && menuHides == old(menuHides)
      ensures shownAdBlockStats == old(shownAdBlockStats)
      ensures tabs == StartTabs(old(tabs), intentUrl, homePage, viewOk, incognito, old(nextId))
      ensures current == StartCurrent(old(tabs), old(current), intentUrl, viewOk, old(nextId))
      ensures loads == old(loads) + StartLoads(old(tabs), intentUrl, homePage, viewOk, old(nextId))
      ensures nextId == old(nextId) + (if OpensTab(old(tabs), intentUrl, viewOk) then 1 else 0)
      ensures menuToggles == old(menuToggles) + (if OpensTab(old(tabs), intentUrl, viewOk) then 1 else 0)
    {
      if intentUrl.None? {
        if tabs == [] {
          var _ := OpenInNewTab(Some(homePage), 0, viewOk, incognito, true, true);
        } else {
          ChangeTab(tabs[RestoredIndex(tabs)].id);
        }
      } else {
        var _ := OpenInNewTab(intentUrl, |tabs|, viewOk, incognito, true, true);
      }
    }

    /** The overlay menu is toggled when no tab is current or the current tab shows the home page. */
    method ToggleMenuOnHome(homePage: string)
      requires Valid()
      modifies this`menuToggles
      ensures menuToggles == old(menuToggles)
                             + (if current.None? || CurrentTab().value.url == homePage then 1 else 0)
    {
      var cur := CurrentTab();
      if cur.None? || cur.value.url == homePage {
        menuToggles := menuToggles + 1;
      }
    }

    /** The legacy start-up loop: the first tab whose flag is set, else the first tab. */
    method FirstSelectedIndex() returns (index: nat)
      requires tabs != []
      ensures index == RestoredIndex(tabs)
    {
      var i := 0;
      while i < |tabs|
        invariant 0 <= i <= |tabs|
        invariant forall k :: 0 <= k < i ==> !tabs[k].selected
        decreases |tabs| - i
      {
        if tabs[i].selected {
          assert FirstSelected(tabs) == i;
          return i;
        }
        i := i + 1;
      }
      assert FirstSelected(tabs) == |tabs|;
      return 0;
    }

    /** Start-up of the legacy activity: the same tab choice as `StartTabs`,
        with the legacy `openInNewTab`; the overlay is shown when no tab is
        current or the current one shows the home page. */
    method LegacyLoadState(intentUrl: Option<string>, homePage: string, viewOk: bool, incognito: bool)
      requires Valid()
      modifies this
      ensures Valid()
      ensures menuToggles == old(menuToggles) && shownAdBlockStats == old(shownAdBlockStats)
      ensures tabs == StartTabs(old(tabs), intentUrl, homePage, viewOk, incognito, old(nextId))
      ensures current == StartCurrent(old(tabs), old(current), intentUrl, viewOk, old(nextId))
      ensures loads == old(loads) + StartLoads(old(tabs), intentUrl, homePage, viewOk, old(nextId))
      ensures nextId == old(nextId) + (if OpensTab(old(tabs), intentUrl, viewOk) then 1 else 0)
      ensures menuHides == old(menuHides) + (if OpensTab(old(tabs), intentUrl, viewOk) then 1 else 0)
      ensures menuShows == old(menuShows)
                           + (if current.None? || CurrentTab().value.url == homePage then 1 else 0)
    {
      LegacyStartTab(intentUrl, homePage, viewOk, incognito);
      ShowMenuOnHome(homePage);
    }

    /** The tab choice of the legacy start-up, as `StartTabs` and `StartCurrent` give it. */
    method LegacyStartTab(intentUrl: Option<string>, homePage: string, viewOk: bool, incognito: bool)
      requires Valid()
      modifies this
      ensures Valid()
      ensures menuToggles == old(menuToggles) && menuShows == old(menuShows)
      ensures shownAdBlockStats == old(shownAdBlockStats)
      ensures tabs == StartTabs(old(tabs), intentUrl, homePage, viewOk, incognito, old(nextId))
      ensures current == StartCurrent(old(tabs), old(current), intentUrl, viewOk, old(nextId))
      ensures loads == old(loads) + StartLoads(old(tabs), intentUrl, homePage, viewOk, old(nextId))
      ensures nextId == old(nextId) + (if OpensTab(old(tabs), intentUrl, viewOk) then 1 else 0)
      ensures menuHides == old(menuHides) + (if OpensTab(old(tabs), intentUrl, viewOk) then 1 else 0)
    {
      if intentUrl.None? {
        if tabs == [] {
          var _ := LegacyOpenInNewTab(homePage, 0, viewOk, incognito);
        } else {
          var i := FirstSelectedIndex();
          ChangeTab(tabs[i].id);
        }
      } else {
        var _ := LegacyOpenInNewTab(intentUrl.value, |tabs|, viewOk, incognito);
      }
    }

    /** `showMenuOverlay()` when no tab is current or the current tab shows the home page. */
    method ShowMenuOnHome(homePage: string)
      requires Valid()
      modifies this`menuShows
      ensures menuShows == old(menuShows)
                           + (if current.None? || CurrentTab().value.url == homePage then 1 else 0)
    {
      var cur := CurrentTab();
      if cur.None? || cur.value.url == homePage {
        menuShows := menuShows + 1;
      }
    }

    /** `onOpenInNewTabRequested(url, navigateImmediately)`, as written: the call
        `openInNewTab(url, index, true, navigateImmediately)` passes its flags by
        position to the reordered `(navigateImmediately, needToHideMenuOverlay)`
        parameters, so the page is always loaded and the menu is toggled only
        when `navigateImmediately` is set. */
    method OnOpenInNewTabRequested(url: string, navigateImmediately: bool, viewOk: bool, incognito: bool)
      returns (newTabId: Option<nat>)
      requires Valid()
      modifies this
      ensures Valid()
      ensures menuShows == old(menuShows) && menuHides == old(menuHides)
      ensures shownAdBlockStats == old(shownAdBlockStats)
      ensures !viewOk ==>
                newTabId == None && tabs == old(tabs) && current == old(current) && nextId == old(nextId)
                && loads == old(loads) && menuToggles == old(menuToggles)
      ensures viewOk ==>
                var index := RequestedTabIndex(old(tabs), old(current));
                && newTabId == Some(old(nextId)) && current == newTabId && nextId == old(nextId) + 1
                && tabs == SelectOnly(InsertAt(old(tabs), index, NewTab(old(nextId), url, incognito)), old(nextId))
                && Ids(tabs) == Ids(old(tabs))[..index] + [old(nextId)] + Ids(old(tabs))[index..]
                && loads == old(loads) + [(old(nextId), url)]
                && menuToggles == old(menuToggles) + (if navigateImmediately then 1 else 0)
    {
      var index := RequestedTabIndex(tabs, current);
      newTabId := OpenInNewTab(Some(url), index, viewOk, incognito, true, navigateImmediately);
    }

    /** `onOpenInNewTabRequested` as its flags evidently mean, and as the legacy
        activity passes them: the page is loaded only when `navigateImmediately`
        is set, and the menu is always toggled. */
    method OnOpenInNewTabRequestedCorrected(url: string, navigateImmediately: bool, viewOk: bool, incognito: bool)
      returns (newTabId: Option<nat>)
      requires Valid()
      modifies this
      ensures Valid()
      ensures menuShows == old(menuShows) && menuHides == old(menuHides)
      ensures shownAdBlockStats == old(shownAdBlockStats)
      ensures !viewOk ==>
                newTabId == None && tabs == old(tabs) && current == old(current) && nextId == old(nextId)
                && loads == old(loads) && menuToggles == old(menuToggles)
      ensures viewOk ==>
                var index := RequestedTabIndex(old(tabs), old(current));
                && newTabId == Some(old(nextId)) && current == newTabId && nextId == old(nextId) + 1
                && tabs == SelectOnly(InsertAt(old(tabs), index, NewTab(old(nextId), url, incognito)), old(nextId))
                && Ids(tabs) == Ids(old(tabs))[..index] + [old(nextId)] + Ids(old(tabs))[index..]
                && loads == old(loads) + (if navigateImmediately then [(old(nextId), url)] else [])
                && menuToggles == old(menuToggles) + 1
    {
      var index := RequestedTabIndex(tabs, current);
      newTabId := OpenInNewTab(Some(url), index, viewOk, incognito, navigateImmediately, true);
    }

    /** `onCreateWindow(dialog, userGesture)` from the page in a tab whose host
        popup level is `hostLevel`. A blocked window counts a blocked popup on
        that tab; an allowed one is inserted right after the current tab. */
    method OnCreateWindow(callerId: nat, hostLevel: Option<PopupLevel>, defaultLevel: PopupLevel,
                          dialog: bool, userGesture: bool, viewOk: bool, incognito: bool)
      returns (newTabId: Option<nat>)
      requires Valid()
      modifies this
      ensures Valid()
      ensures loads == old(loads) && menuToggles == old(menuToggles)
      ensures menuShows == old(menuShows) && menuHides == old(menuHides)
      ensures ShouldBlockNewWindow(hostLevel, defaultLevel, dialog, userGesture) ==>
                newTabId == None && current == old(current) && nextId == old(nextId)
      ensures ShouldBlockNewWindow(hostLevel, defaultLevel, dialog, userGesture)
                && callerId !in Ids(old(tabs)) ==>
                tabs == old(tabs) && shownAdBlockStats == old(shownAdBlockStats)
      ensures ShouldBlockNewWindow(hostLevel, defaultLevel, dialog, userGesture)
                && callerId in Ids(old(tabs)) ==>
                var t := old(tabs)[Position(old(tabs), callerId)];
                && tabs == UpdateTab(old(tabs), t.(blockedPopups := t.blockedPopups + 1))
                && shownAdBlockStats == Some((true, t.blockedAds, t.blockedPopups + 1))
      ensures !ShouldBlockNewWindow(hostLevel, defaultLevel, dialog, userGesture) ==>
                shownAdBlockStats == old(shownAdBlockStats)
      ensures !ShouldBlockNewWindow(hostLevel, defaultLevel, dialog, userGesture)
                && (!viewOk || old(current).None?) ==>
                newTabId == None && tabs == old(tabs) && current == old(current) && nextId == old(nextId)
      ensures !ShouldBlockNewWindow(hostLevel, defaultLevel, dialog, userGesture)
                && viewOk && old(current).Some? ==>
                var index := Position(old(tabs), old(current).value) + 1;
                && newTabId == Some(old(nextId)) && current == newTabId && nextId == old(nextId) + 1
                && tabs == SelectOnly(InsertAt(old(tabs), index, NewTab(old(nextId), "", incognito)), old(nextId))
                && Ids(tabs) == Ids(old(tabs))[..index] + [old(nextId)] + Ids(old(tabs))[index..]
    {
      if ShouldBlockNewWindow(hostLevel, defaultLevel, dialog, userGesture) {
        OnBlockedDialog(callerId);
        return None;
      }
      if !viewOk || current.None? {
        return None;
      }
      var index := Position(tabs, current.value) + 1;
      var id := AddAndSelect(index, "", incognito);
      newTabId := Some(id);
    }

    /** `onBlockedDialog(newTab)`: one more blocked popup on the calling tab; the
        statistics shown are refreshed. */
    method OnBlockedDialog(callerId: nat)
      requires Valid()
      modifies this`tabs, this`shownAdBlockStats
      ensures Valid()
      ensures Ids(tabs) == Ids(old(tabs))
      ensures callerId !in Ids(old(tabs)) ==> tabs == old(tabs) && shownAdBlockStats == old(shownAdBlockStats)
      ensures callerId in Ids(old(tabs)) ==>
                var t := old(tabs)[Position(old(tabs), callerId)];
                && tabs == UpdateTab(old(tabs), t.(blockedPopups := t.blockedPopups + 1))
                && shownAdBlockStats == Some((true, t.blockedAds, t.blockedPopups + 1))
    {
      var p := Position(tabs, callerId);
      if p == -1 {
        return;
      }
      var t := tabs[p];
      var before := tabs;
      tabs := UpdateTab(tabs, t.(blockedPopups := t.blockedPopups + 1));
      assert Ids(tabs) == Ids(before);
      shownAdBlockStats := Some((true, t.blockedAds, t.blockedPopups + 1));
    }

    /** `onBlockedAd(uri)`: counted only while ad blocking is enabled globally. */
    method OnBlockedAd(callerId: nat, globalAdBlock: bool)
      requires Valid()
      modifies this`tabs, this`shownAdBlockStats
      ensures Valid()
      ensures Ids(tabs) == Ids(old(tabs))
      ensures !globalAdBlock || callerId !in Ids(old(tabs)) ==>
                tabs == old(tabs) && shownAdBlockStats == old(shownAdBlockStats)
      ensures globalAdBlock && callerId in Ids(old(tabs)) ==>
                var t := old(tabs)[Position(old(tabs), callerId)];
                && tabs == UpdateTab(old(tabs), t.(blockedAds := t.blockedAds + 1))
                && shownAdBlockStats == Some((true, t.blockedAds + 1, t.blockedPopups))
    {
      if !globalAdBlock {
        return;
      }
      var p := Position(tabs, callerId);
      if p == -1 {
        return;
      }
      var t := tabs[p];
      var before := tabs;
      tabs := UpdateTab(tabs, t.(blockedAds := t.blockedAds + 1));
      assert Ids(tabs) == Ids(before);
      shownAdBlockStats := Some((true, t.blockedAds + 1, t.blockedPopups));
    }

    /** `onPageStarted(url)` in the new activity: the tab's URL is refreshed and
        both blocked counters start again from zero. Returns the URL shown in the
        address box; the legacy activity shows it only for the tab at the title
        strip's current index. */
    method OnPageStarted(callerId: nat, engineUrl: Option<string>, callbackUrl: Option<string>)
      returns (shown: Option<string>)
      requires Valid()
      modifies this`tabs
      ensures Valid()
      ensures Ids(tabs) == Ids(old(tabs))
      ensures callerId !in Ids(old(tabs)) ==> tabs == old(tabs) && shown == None
      ensures callerId in Ids(old(tabs)) ==>
                var t := old(tabs)[Position(old(tabs), callerId)];
                var u := PageStartUrl(engineUrl, callbackUrl, t.url);
                && tabs == UpdateTab(old(tabs), t.(url := u, blockedAds := 0, blockedPopups := 0))
                && shown == Some(u)
    {
      var p := Position(tabs, callerId);
      if p == -1 {
        return None;
      }
      var t := tabs[p];
      var u := PageStartUrl(engineUrl, callbackUrl, t.url);
      var before := tabs;
      tabs := UpdateTab(tabs, t.(url := u, blockedAds := 0, blockedPopups := 0));
      assert Ids(tabs) == Ids(before);
      shown := Some(u);
    }

    /** `isAdBlockingEnabled()`: the current tab's override, else the global setting. */
    function IsAdBlockingEnabled(globalAdBlock: bool): (r: bool)
      reads this`tabs, this`current, this`nextId
      requires Valid()
      ensures current.None? ==> r == globalAdBlock
      ensures current.Some? && CurrentTab().value.adblock.Some? ==> r == CurrentTab().value.adblock.value
      ensures current.Some? && CurrentTab().value.adblock.None? ==> r == globalAdBlock
    {
      if current.None? then globalAdBlock else CurrentTab().value.adblock.GetOr(globalAdBlock)
    }

    /** `toggleAdBlockForTab()`: the current tab's effective setting is inverted
        and stored as its override. */
    method ToggleAdBlockForTab(globalAdBlock: bool)
      requires Valid()
      modifies this`tabs
      ensures Valid()
      ensures Ids(tabs) == Ids(old(tabs))
      ensures old(current).None? ==> tabs == old(tabs)
      ensures old(current).Some? ==>
                tabs == UpdateTab(old(tabs), old(CurrentTab()).value.(adblock := Some(!old(IsAdBlockingEnabled(globalAdBlock)))))
      ensures IsAdBlockingEnabled(globalAdBlock) == (if current.None? then globalAdBlock
                                                       else !old(IsAdBlockingEnabled(globalAdBlock)))
    {
      var cur := CurrentTab();
      if cur.None? {
        return;
      }
      var t := cur.value;
      var newState := !t.adblock.GetOr(globalAdBlock);
      var before := tabs;
      tabs := UpdateTab(tabs, t.(adblock := Some(newState)));
      assert Ids(tabs) == Ids(before);
      var p := Position(tabs, t.id);
      assert tabs[p] == t.(adblock := Some(newState));
    }

    /** Legacy `syncTabWithTitles()`: the tab at the title strip's index is
        switched to unless already selected; with no tab there, a home tab is
        opened at the start (negative index) or at the end. */
    method SyncTabWithTitles(titleIndex: int, homePage: string, viewOk: bool, incognito: bool)
      requires Valid()
      modifies this
      ensures Valid()
      ensures menuToggles == old(menuToggles) && menuShows == old(menuShows)
      ensures shownAdBlockStats == old(shownAdBlockStats)
      ensures TabByTitleIndex(old(tabs), titleIndex).Some? && old(tabs)[titleIndex].selected ==>
                tabs == old(tabs) && current == old(current) && nextId == old(nextId)
                && loads == old(loads) && menuHides == old(menuHides)
      ensures TabByTitleIndex(old(tabs), titleIndex).Some? && !old(tabs)[titleIndex].selected ==>
                tabs == SelectOnly(old(tabs), old(tabs)[titleIndex].id) && current == Some(old(tabs)[titleIndex].id)
                && nextId == old(nextId) && loads == old(loads) && menuHides == old(menuHides)
      ensures TabByTitleIndex(old(tabs), titleIndex).None? && !viewOk ==>
                tabs == old(tabs) && current == old(current) && nextId == old(nextId)
                && loads == old(loads) && menuHides == old(menuHides)
      ensures TabByTitleIndex(old(tabs), titleIndex).None? && viewOk ==>
                var index := if titleIndex < 0 then 0 else |old(tabs)|;
                && tabs == SelectOnly(InsertAt(old(tabs), index, NewTab(old(nextId), homePage, incognito)), old(nextId))
                && current == Some(old(nextId)) && nextId == old(nextId) + 1
                && loads == old(loads) + [(old(nextId), homePage)] && menuHides == old(menuHides) + 1
                && Ids(tabs) == (if titleIndex < 0 then [old(nextId)] + Ids(old(tabs))
                                 else Ids(old(tabs)) + [old(nextId)])
    {
      var tab := TabByTitleIndex(tabs, titleIndex);
      if tab.None? {
        var index := if titleIndex < 0 then 0 else |tabs|;
        // the two insert positions as list identities, which the id clause needs
        ghost var ids := Ids(tabs);
        assert ids[..0] + [nextId] + ids[0..] == [nextId] + ids;
        assert ids[..|tabs|] + [nextId] + ids[|tabs|..] == ids + [nextId];
        var _ := LegacyOpenInNewTab(homePage, index, viewOk, incognito);
      } else if !tab.value.selected {
        ChangeTab(tab.value.id);
      }
    }

    /** Legacy `onTrimMemory(level)`: the ids of the tabs asked to trim memory,
        which are exactly the tabs not marked selected, in list order. */
    method OnTrimMemory() returns (trimmed: seq<nat>)
      ensures trimmed == UnselectedIds(tabs)
    {
      trimmed := [];
      var i := 0;
      while i < |tabs|
        invariant 0 <= i <= |tabs|
        invariant trimmed + UnselectedIds(tabs[i..]) == UnselectedIds(tabs)
        decreases |tabs| - i
      {
        assert tabs[i..][1..] == tabs[i + 1..];
        if !tabs[i].selected {
          trimmed := trimmed + [tabs[i].id];
        }
        i := i + 1;
      }
    }
  }

  /** The largest id in a list (0 for an empty list). */
  function MaxId(tabs: seq<Tab>): (r: nat)
    ensures forall i :: 0 <= i < |tabs| ==> tabs[i].id <= r
  {
    if tabs == [] then 0
    else
      var m := MaxId(tabs[1..]);
      if tabs[0].id > m then tabs[0].id else m
  }

  /** Closing a tab of a list of two or more switches to a tab that stays in
      the list, and the list shrinks by one exactly when the tab was in it. */
  lemma CloseKeepsNeighbour(tabs: seq<Tab>, id: nat)
    requires UniqueIds(tabs) && |tabs| >= 2
    ensures var p := Position(tabs, id);
            var n := NeighbourIndex(p);
            0 <= n < |tabs| && tabs[n].id != id
            && tabs[n].id in RemoveFirst(Ids(tabs), id)
  {
    var p := Position(tabs, id);
    var n := NeighbourIndex(p);
    var ids := Ids(tabs);
    if p >= 0 {
      assert ids == ids[..p] + [id] + ids[p + 1..];
      if n < p {
        assert ids[n] in ids[..p];
      } else {
        assert ids[n] == ids[p + 1..][n - p - 1];
      }
    } else {
      assert ids[n] in ids;
    }
  }
}
