/** The browser screen's navigation: a back stack of destinations with the
    browser page at the bottom, the browser page's own back-press priority
    chain over the UI flags, and the rule that decides when the mouse-like
    cursor is active. */
module BrowserScreen {
  import opened Strings
  import opened BrowserUi

  /** Destinations of the back stack. */
  datatype AppKey =
    | Browser | History | Downloads | Favorites | Settings | Shortcuts
    | BookmarkEditor(id: int, hasId: bool)

  /** The one thing a back press on the browser page does. */
  datatype BackAction =
    | ExitFullscreen       // ask the current tab's engine to leave fullscreen
    | HideLinkActions
    | HideCursorMenu       // and give the focus back to the page
    | HideMenu             // and give the focus back to the page
    | CursorModeConsumed   // the cursor mode took the press
    | ShowMenu

  /** The back handler's priority chain. `cursorModeConsumes` is what the
      cursor mode answers when it is asked (it is asked only when no overlay
      is open). */
  function BrowserBackAction(s: BrowserUiState, cursorModeConsumes: bool): (a: BackAction)
    ensures a == ExitFullscreen <==> s.isFullscreen
    ensures a == HideLinkActions <==> !s.isFullscreen && s.isLinkActionsVisible
    ensures a == HideCursorMenu <==>
              !s.isFullscreen && !s.isLinkActionsVisible && s.isCursorMenuVisible
    ensures a == HideMenu <==>
              !s.isFullscreen && !s.isLinkActionsVisible && !s.isCursorMenuVisible && s.isMenuVisible
    ensures a == CursorModeConsumed <==> !s.isFullscreen && OverlayCount(s) == 0 && cursorModeConsumes
    ensures a == ShowMenu <==> !s.isFullscreen && OverlayCount(s) == 0 && !cursorModeConsumes
  {
    if s.isFullscreen then ExitFullscreen
    else if s.isLinkActionsVisible then HideLinkActions
    else if s.isCursorMenuVisible then HideCursorMenu
    else if s.isMenuVisible then HideMenu
    else if cursorModeConsumes then CursorModeConsumed
    else ShowMenu
  }

  /** What a back action does to the UI state. Leaving fullscreen is done by
      the engine, which reports back later, so the state is not touched here. */
  function AfterBack(s: BrowserUiState, a: BackAction): (r: BrowserUiState)
    ensures a == ExitFullscreen || a == CursorModeConsumed ==> r == s
    ensures a == ShowMenu ==> r.isMenuVisible
  {
    match a
    case ExitFullscreen => s
    case HideLinkActions => WithoutLinkActions(s)
    case HideCursorMenu => WithoutCursorMenu(s)
    case HideMenu => WithoutMenu(s)
    case CursorModeConsumed => s
    case ShowMenu => WithMenu(s)
  }

  /** How many of the three overlays (menu, cursor menu, link actions) are open. */
  function OverlayCount(s: BrowserUiState): (n: nat)
    ensures n <= 3
    ensures n == 0 <==> !s.isMenuVisible && !s.isCursorMenuVisible && !s.isLinkActionsVisible
  {
    (if s.isMenuVisible then 1 else 0) + (if s.isCursorMenuVisible then 1 else 0)
    + (if s.isLinkActionsVisible then 1 else 0)
  }

  /** Outside fullscreen, a back press with an overlay open closes exactly one
      overlay and touches nothing else; with none open it opens the menu
      unless the cursor mode takes the press. */
  lemma BackClosesOneOverlay(s: BrowserUiState, cursorModeConsumes: bool)
    requires !s.isFullscreen
    ensures var r := AfterBack(s, BrowserBackAction(s, cursorModeConsumes));
            && (OverlayCount(s) > 0 ==> OverlayCount(r) == OverlayCount(s) - 1 && |Changed(s, r)| == 1)
            && (OverlayCount(s) == 0 && cursorModeConsumes ==> r == s)
            && (OverlayCount(s) == 0 && !cursorModeConsumes ==> r.isMenuVisible && Changed(s, r) == {MenuVisible})
  {
    var a := BrowserBackAction(s, cursorModeConsumes);
    var r := AfterBack(s, a);
    if a == HideLinkActions {
      assert LinkActionsVisible in Changed(s, r);
      OnlyChange(Changed(s, r), LinkActionsVisible);
    } else if a == HideCursorMenu {
      assert CursorMenuVisible in Changed(s, r);
      OnlyChange(Changed(s, r), CursorMenuVisible);
    } else if a == HideMenu || a == ShowMenu {
      assert MenuVisible in Changed(s, r);
      OnlyChange(Changed(s, r), MenuVisible);
    }
  }

  /** A change confined to one field that does change that field changes
      exactly it. */
  lemma OnlyChange(c: set<UiField>, f: UiField)
    requires c <= {f} && f in c
    ensures c == {f} && |c| == 1
  {
  }

  /** Repeated back presses outside fullscreen close the overlays one by one,
      the link actions first and the menu last. */
  lemma BackPressesCloseAll(s: BrowserUiState, c1: bool, c2: bool, c3: bool)
    requires !s.isFullscreen
    ensures var r1 := AfterBack(s, BrowserBackAction(s, c1));
            var r2 := AfterBack(r1, BrowserBackAction(r1, c2));
            var r3 := AfterBack(r2, BrowserBackAction(r2, c3));
            OverlayCount(s) == 3 ==> OverlayCount(r3) == 0 && !r1.isLinkActionsVisible && r2.isMenuVisible
  {
    BackClosesOneOverlay(s, c1);
    var r1 := AfterBack(s, BrowserBackAction(s, c1));
    BackClosesOneOverlay(r1, c2);
    var r2 := AfterBack(r1, BrowserBackAction(r1, c2));
    BackClosesOneOverlay(r2, c3);
  }

  /** On the browser page an overlay is active when one of the three is open
      and the page is not fullscreen. */
  predicate OverlayActive(s: BrowserUiState) {
    (s.isMenuVisible || s.isCursorMenuVisible || s.isLinkActionsVisible) && !s.isFullscreen
  }

  /** The overlay effect: on the browser page it enables the cursor and
      focuses the page exactly when no overlay is active (otherwise it clears
      the page focus); on any other destination it does nothing. The answer
      is (cursor enabled, page focused). */
  function OverlayEffect(top: AppKey, s: BrowserUiState): (r: Option<(bool, bool)>)
    ensures r.Some? <==> top == Browser
    ensures r.Some? ==> r.value.0 == r.value.1
    ensures r.Some? ==> (r.value.0 <==> s.isFullscreen || OverlayCount(s) == 0)
  {
    if top != Browser then None
    else
      var active := OverlayActive(s);
      Some((!active, !active))
  }

  /** The top bar and bottom panel are shown when the menu flag is set and the
      page is not fullscreen. */
  predicate MenuShown(s: BrowserUiState) {
    s.isMenuVisible && !s.isFullscreen
  }

  predicate CursorMenuShown(s: BrowserUiState) {
    s.isCursorMenuVisible && !s.isFullscreen
  }

  predicate LinkActionsShown(s: BrowserUiState) {
    s.isLinkActionsVisible && !s.isFullscreen
  }

  /** Fullscreen hides every overlay whatever the flags say, and the cursor is
      then enabled; outside fullscreen each overlay is shown exactly when its
      flag is set. */
  lemma FullscreenShowsNoOverlay(s: BrowserUiState)
    ensures s.isFullscreen ==> !MenuShown(s) && !CursorMenuShown(s) && !LinkActionsShown(s)
                               && OverlayEffect(Browser, s) == Some((true, true))
    ensures !s.isFullscreen ==> (MenuShown(s) <==> s.isMenuVisible)
                                && (CursorMenuShown(s) <==> s.isCursorMenuVisible)
                                && (LinkActionsShown(s) <==> s.isLinkActionsVisible)
    ensures OverlayActive(s) <==> MenuShown(s) || CursorMenuShown(s) || LinkActionsShown(s)
  {
  }

  /** The navigation host of the browser screen. */
  class Navigator {
    var backStack: seq<AppKey>
    const ui: BrowserUiViewModel
    /** Addresses handed to navigate-or-search, in order. */
    var navigations: seq<string>
    var closeWindowRequests: nat
    var fullscreenExitRequests: nat
    var pageFocusRequests: nat

    /** The browser page is at the bottom and nowhere else. */
    ghost predicate Valid()
      reads this
    {
      |backStack| >= 1 && backStack[0] == Browser
      && forall i :: 1 <= i < |backStack| ==> backStack[i] != Browser
    }

    function Top(): (k: AppKey)
      requires Valid()
      reads this
      ensures k == backStack[|backStack| - 1]
      ensures k == Browser <==> |backStack| == 1
    {
      backStack[|backStack| - 1]
    }

    constructor (ui: BrowserUiViewModel)
      ensures Valid() && backStack == [Browser] && this.ui == ui
      ensures navigations == [] && closeWindowRequests == 0
      ensures fullscreenExitRequests == 0 && pageFocusRequests == 0
    {
      backStack := [Browser];
      this.ui := ui;
      navigations := [];
      closeWindowRequests := 0;
      fullscreenExitRequests := 0;
      pageFocusRequests := 0;
    }

    /** Opening a destination from the menu or from the favorites list. */
    method Open(key: AppKey)
      requires Valid() && key != Browser
      modifies this`backStack
      ensures Valid() && backStack == old(backStack) + [key]
    {
      backStack := backStack + [key];
    }

    /** A back press no handler consumed: pop the top entry, or close the
        window when only the browser page is left. */
    method UnhandledBack()
      requires Valid()
      modifies this`backStack, this`closeWindowRequests
      ensures Valid()
      ensures |old(backStack)| > 1 ==>
                backStack == old(backStack)[..|old(backStack)| - 1] && closeWindowRequests == old(closeWindowRequests)
      ensures |old(backStack)| == 1 ==>
                backStack == old(backStack) && closeWindowRequests == old(closeWindowRequests) + 1
    {
      if |backStack| > 1 {
        backStack := backStack[..|backStack| - 1];
      } else {
        closeWindowRequests := closeWindowRequests + 1;
      }
    }

    /** A back press on the browser page: the priority chain. */
    method BrowserBack(cursorModeConsumes: bool) returns (a: BackAction)
      requires Valid() && Top() == Browser
      modifies this`fullscreenExitRequests, this`pageFocusRequests, ui
      ensures Valid() && backStack == old(backStack)
      ensures a == BrowserBackAction(old(ui.state), cursorModeConsumes)
      ensures ui.state == AfterBack(old(ui.state), a)
      ensures ui.hideProgressPending == old(ui.hideProgressPending)
      ensures ui.notificationTimers == old(ui.notificationTimers)
      ensures fullscreenExitRequests == old(fullscreenExitRequests) + (if a == ExitFullscreen then 1 else 0)
      ensures pageFocusRequests == old(pageFocusRequests) + (if a == HideCursorMenu || a == HideMenu then 1 else 0)
    {
      a := BrowserBackAction(ui.state, cursorModeConsumes);
      match a
      case ExitFullscreen =>
        fullscreenExitRequests := fullscreenExitRequests + 1;
      case HideLinkActions =>
        ui.HideLinkActions();
      case HideCursorMenu =>
        ui.HideCursorMenu();
        pageFocusRequests := pageFocusRequests + 1;
      case HideMenu =>
        ui.HideMenu();
        pageFocusRequests := pageFocusRequests + 1;
      case CursorModeConsumed =>
      case ShowMenu =>
        ui.ShowMenu();
    }

    /** Back from History, Downloads, Favorites, Settings or Shortcuts: pop one
        entry and show the menu again. */
    method LeaveScreen()
      requires Valid()
      requires Top() in {History, Downloads, Favorites, Settings, Shortcuts}
      modifies this`backStack, ui
      ensures Valid() && backStack == old(backStack)[..|old(backStack)| - 1]
      ensures ui.state == WithMenu(old(ui.state))
      ensures ui.hideProgressPending == old(ui.hideProgressPending)
      ensures ui.notificationTimers == old(ui.notificationTimers)
    {
      backStack := backStack[..|backStack| - 1];
      ui.ShowMenu();
    }

    /** The bookmark editor is done: pop one entry, menu left as it is. */
    method FinishBookmarkEditor()
      requires Valid() && Top().BookmarkEditor?
      modifies this`backStack
      ensures Valid() && backStack == old(backStack)[..|old(backStack)| - 1]
    {
      backStack := backStack[..|backStack| - 1];
    }

    /** A URL picked in History or Favorites: navigate to it, return straight
        to the browser page and hide the menu. */
    method PickUrl(url: string)
      requires Valid() && Top() in {History, Favorites}
      modifies this`backStack, this`navigations, ui
      ensures Valid() && backStack == [Browser]
      ensures navigations == old(navigations) + [url]
      ensures ui.state == WithoutMenu(old(ui.state))
      ensures ui.hideProgressPending == old(ui.hideProgressPending)
      ensures ui.notificationTimers == old(ui.notificationTimers)
    {
      navigations := navigations + [url];
      backStack := [];
      backStack := backStack + [Browser];
      ui.HideMenu();
    }
  }
}
