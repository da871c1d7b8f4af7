/** The browser screen's observable UI state and the view model that updates
    it: every operation replaces the state by a copy with a few named fields
    changed; two operations also start delayed jobs (hiding the progress bar,
    clearing a notification), modelled as pending timers that fire later. */
module BrowserUi {
  import opened Strings

  datatype NotificationUi = NotificationUi(iconRes: int, message: string)

  /** The current page thumbnail is an opaque bitmap handle. */
  datatype BrowserUiState = BrowserUiState(
    url: string,
    progress: int,
    isProgressVisible: bool,
    canGoBack: bool,
    canGoForward: bool,
    isIncognito: bool,
    isAdBlockEnabled: bool,
    blockedAds: int,
    blockedPopups: int,
    isFullscreen: bool,
    currentThumbnail: Option<nat>,
    notification: Option<NotificationUi>,
    isCursorMenuVisible: bool,
    cursorMenuX: int,
    cursorMenuY: int,
    isLinkActionsVisible: bool,
    isMenuVisible: bool)

  /** The state a fresh view model starts from. */
  function Initial(): (r: BrowserUiState)
    ensures r.url == [] && r.progress == 0 && r.blockedAds == 0 && r.blockedPopups == 0
    ensures r.isAdBlockEnabled
    ensures !r.isProgressVisible && !r.canGoBack && !r.canGoForward && !r.isIncognito && !r.isFullscreen
    ensures r.currentThumbnail.None? && r.notification.None?
    ensures !r.isCursorMenuVisible && r.cursorMenuX == 0 && r.cursorMenuY == 0
    ensures !r.isLinkActionsVisible && !r.isMenuVisible
  {
    BrowserUiState("", 0, false, false, false, false, true, 0, 0, false, None, None, false, 0, 0, false, false)
  }

  /** Names of the state's fields, to say which ones an operation touches. */
  datatype UiField =
    | Url | Progress | ProgressVisible | CanGoBack | CanGoForward | Incognito
    | AdBlockEnabled | BlockedAds | BlockedPopups | Fullscreen | Thumbnail
    | Notification | CursorMenuVisible | CursorMenuX | CursorMenuY
    | LinkActionsVisible | MenuVisible

  /** The fields in which two states differ. */
  function Changed(a: BrowserUiState, b: BrowserUiState): set<UiField> {
    (if a.url != b.url then {Url} else {})
    + (if a.progress != b.progress then {Progress} else {})
    + (if a.isProgressVisible != b.isProgressVisible then {ProgressVisible} else {})
    + (if a.canGoBack != b.canGoBack then {CanGoBack} else {})
    + (if a.canGoForward != b.canGoForward then {CanGoForward} else {})
    + (if a.isIncognito != b.isIncognito then {Incognito} else {})
    + (if a.isAdBlockEnabled != b.isAdBlockEnabled then {AdBlockEnabled} else {})
    + (if a.blockedAds != b.blockedAds then {BlockedAds} else {})
    + (if a.blockedPopups != b.blockedPopups then {BlockedPopups} else {})
    + (if a.isFullscreen != b.isFullscreen then {Fullscreen} else {})
    + (if a.currentThumbnail != b.currentThumbnail then {Thumbnail} else {})
    + (if a.notification != b.notification then {Notification} else {})
    + (if a.isCursorMenuVisible != b.isCursorMenuVisible then {CursorMenuVisible} else {})
    + (if a.cursorMenuX != b.cursorMenuX then {CursorMenuX} else {})
    + (if a.cursorMenuY != b.cursorMenuY then {CursorMenuY} else {})
    + (if a.isLinkActionsVisible != b.isLinkActionsVisible then {LinkActionsVisible} else {})
    + (if a.isMenuVisible != b.isMenuVisible then {MenuVisible} else {})
  }

  /** Two states that differ in no field are the same state, so a bound on
      `Changed` is a complete frame condition. */
  lemma NoChangeMeansEqual(a: BrowserUiState, b: BrowserUiState)
    ensures Changed(a, b) == {} <==> a == b
  {
    if Changed(a, b) == {} {
      assert Url !in Changed(a, b) && Progress !in Changed(a, b) && ProgressVisible !in Changed(a, b);
    }
  }

  // ---- the copy-with transitions -------------------------------------------

  function WithUrl(s: BrowserUiState, url: string): (r: BrowserUiState)
    ensures r.url == url && Changed(s, r) <= {Url}
  {
    s.(url := url)
  }

  function WithIncognito(s: BrowserUiState, enabled: bool): (r: BrowserUiState)
    ensures r.isIncognito == enabled && Changed(s, r) <= {Incognito}
  {
    s.(isIncognito := enabled)
  }

  /** Turning ad blocking on or off leaves the blocked counters alone. */
  function WithAdBlockEnabled(s: BrowserUiState, enabled: bool): (r: BrowserUiState)
    ensures r.isAdBlockEnabled == enabled && Changed(s, r) <= {AdBlockEnabled}
    ensures r.blockedAds == s.blockedAds && r.blockedPopups == s.blockedPopups
  {
    s.(isAdBlockEnabled := enabled)
  }

  /** A progress report always shows the bar, whatever the value. */
  function WithProgress(s: BrowserUiState, progress: int): (r: BrowserUiState)
    ensures r.progress == progress && r.isProgressVisible
    ensures Changed(s, r) <= {Progress, ProgressVisible}
  {
    s.(progress := progress, isProgressVisible := true)
  }

  /** What the delayed hide job does: only the bar's visibility changes; the
      last progress value stays. */
  function WithoutProgressBar(s: BrowserUiState): (r: BrowserUiState)
    ensures !r.isProgressVisible && r.progress == s.progress
    ensures Changed(s, r) <= {ProgressVisible}
  {
    s.(isProgressVisible := false)
  }

  function WithNavState(s: BrowserUiState, canGoBack: bool, canGoForward: bool): (r: BrowserUiState)
    ensures r.canGoBack == canGoBack && r.canGoForward == canGoForward
    ensures Changed(s, r) <= {CanGoBack, CanGoForward}
  {
    s.(canGoBack := canGoBack, canGoForward := canGoForward)
  }

  /** The tab's ad-blocking flag and both counters are replaced together. */
  function WithAdBlockStats(s: BrowserUiState, enabled: bool, ads: int, popups: int): (r: BrowserUiState)
    ensures r.isAdBlockEnabled == enabled && r.blockedAds == ads && r.blockedPopups == popups
    ensures Changed(s, r) <= {AdBlockEnabled, BlockedAds, BlockedPopups}
  {
    s.(isAdBlockEnabled := enabled, blockedAds := ads, blockedPopups := popups)
  }

  function WithFullscreen(s: BrowserUiState, fullscreen: bool): (r: BrowserUiState)
    ensures r.isFullscreen == fullscreen && Changed(s, r) <= {Fullscreen}
  {
    s.(isFullscreen := fullscreen)
  }

  function WithThumbnail(s: BrowserUiState, bitmap: Option<nat>): (r: BrowserUiState)
    ensures r.currentThumbnail == bitmap && Changed(s, r) <= {Thumbnail}
  {
    s.(currentThumbnail := bitmap)
  }

  /** A new notification replaces whatever notification was showing. */
  function WithNotification(s: BrowserUiState, iconRes: int, message: string): (r: BrowserUiState)
    ensures r.notification == Some(NotificationUi(iconRes, message))
    ensures Changed(s, r) <= {Notification}
  {
    s.(notification := Some(NotificationUi(iconRes, message)))
  }

  /** What a notification's delayed clear job does: it removes the notification
      only if the one showing still carries its message. */
  function ClearedNotification(s: BrowserUiState, message: string): (r: BrowserUiState)
    ensures s.notification.Some? && s.notification.value.message == message ==> r.notification.None?
    ensures !(s.notification.Some? && s.notification.value.message == message) ==> r == s
    ensures Changed(s, r) <= {Notification}
  {
    if s.notification.Some? && s.notification.value.message == message then s.(notification := None) else s
  }

  function WithCursorMenuAt(s: BrowserUiState, x: int, y: int): (r: BrowserUiState)
    ensures r.isCursorMenuVisible && r.cursorMenuX == x && r.cursorMenuY == y
    ensures Changed(s, r) <= {CursorMenuVisible, CursorMenuX, CursorMenuY}
  {
    s.(isCursorMenuVisible := true, cursorMenuX := x, cursorMenuY := y)
  }

  /** Hiding the cursor menu keeps its last position. */
  function WithoutCursorMenu(s: BrowserUiState): (r: BrowserUiState)
    ensures !r.isCursorMenuVisible && Changed(s, r) <= {CursorMenuVisible}
  {
    s.(isCursorMenuVisible := false)
  }

  /** Opening the link actions closes the cursor menu: the two are never
      opened together by this operation. */
  function WithLinkActions(s: BrowserUiState): (r: BrowserUiState)
    ensures r.isLinkActionsVisible && !r.isCursorMenuVisible
    ensures Changed(s, r) <= {LinkActionsVisible, CursorMenuVisible}
  {
    s.(isLinkActionsVisible := true, isCursorMenuVisible := false)
  }

  function WithoutLinkActions(s: BrowserUiState): (r: BrowserUiState)
    ensures !r.isLinkActionsVisible && Changed(s, r) <= {LinkActionsVisible}
  {
    s.(isLinkActionsVisible := false)
  }

  function WithMenu(s: BrowserUiState): (r: BrowserUiState)
    ensures r.isMenuVisible && Changed(s, r) <= {MenuVisible}
  {
    s.(isMenuVisible := true)
  }

  function WithoutMenu(s: BrowserUiState): (r: BrowserUiState)
    ensures !r.isMenuVisible && Changed(s, r) <= {MenuVisible}
  {
    s.(isMenuVisible := false)
  }

  /** Toggling always flips the menu's visibility and nothing else. */
  function MenuToggled(s: BrowserUiState): (r: BrowserUiState)
    ensures r.isMenuVisible == !s.isMenuVisible && Changed(s, r) == {MenuVisible}
  {
    s.(isMenuVisible := !s.isMenuVisible)
  }

  // ---- algebraic laws ----------------------------------------------------

  /** Toggling the menu twice restores the state exactly. */
  lemma ToggleTwice(s: BrowserUiState)
    ensures MenuToggled(MenuToggled(s)) == s
  {
  }

  /** Toggling shows a hidden menu and hides a shown one. */
  lemma ToggleIsShowOrHide(s: BrowserUiState)
    ensures MenuToggled(s) == (if s.isMenuVisible then WithoutMenu(s) else WithMenu(s))
  {
  }

  /** Showing or hiding twice is the same as once, and of a show and a hide
      the later one wins. */
  lemma ShowHideLastWins(s: BrowserUiState)
    ensures WithMenu(WithMenu(s)) == WithMenu(s)
    ensures WithoutMenu(WithoutMenu(s)) == WithoutMenu(s)
    ensures WithMenu(WithoutMenu(s)) == WithMenu(s) && WithoutMenu(WithMenu(s)) == WithoutMenu(s)
  {
  }

  /** Showing then hiding the link actions leaves the cursor menu closed. */
  lemma LinkActionsCloseCursorMenu(s: BrowserUiState, x: int, y: int)
    ensures !WithoutLinkActions(WithLinkActions(WithCursorMenuAt(s, x, y))).isCursorMenuVisible
    ensures WithLinkActions(WithCursorMenuAt(s, x, y)).cursorMenuX == x
  {
  }

  /** A later notification with a different message survives the earlier
      notification's clear job; the clear job of the notification still
      showing removes it. */
  lemma NotificationClearGuard(s: BrowserUiState, icon1: int, m1: string, icon2: int, m2: string)
    ensures m1 != m2 ==>
              ClearedNotification(WithNotification(WithNotification(s, icon1, m1), icon2, m2), m1).notification
              == Some(NotificationUi(icon2, m2))
    ensures ClearedNotification(WithNotification(WithNotification(s, icon1, m1), icon2, m2), m2).notification.None?
  {
  }

  /** The view model: the published state plus the delayed jobs it started. */
  class BrowserUiViewModel {
    var state: BrowserUiState
    /** A hide-progress job is scheduled and not cancelled. */
    var hideProgressPending: bool
    /** The message of every notification clear job still waiting, oldest first. */
    var notificationTimers: seq<string>

    constructor ()
      ensures state == Initial() && !hideProgressPending && notificationTimers == []
    {
      state := Initial();
      hideProgressPending := false;
      notificationTimers := [];
    }

    method UpdateUrl(url: string)
      modifies this`state
      ensures state == WithUrl(old(state), url)
    {
      state := WithUrl(state, url);
    }

    method SetIncognitoMode(enabled: bool)
      modifies this`state
      ensures state == WithIncognito(old(state), enabled)
    {
      state := WithIncognito(state, enabled);
    }

    method SetAdBlockEnabled(enabled: bool)
      modifies this`state
      ensures state == WithAdBlockEnabled(old(state), enabled)
    {
      state := WithAdBlockEnabled(state, enabled);
    }

    /** Cancels any pending hide, shows the bar with the new value, and
        schedules a hide exactly when loading reached 100. */
    method UpdateProgress(progress: int)
      modifies this`state, this`hideProgressPending
      ensures state == WithProgress(old(state), progress)
      ensures hideProgressPending <==> progress >= 100
    {
      hideProgressPending := false;
      state := WithProgress(state, progress);
      if progress >= 100 {
        hideProgressPending := true;
      }
    }

    /** The scheduled hide job running after its delay. */
    method HideProgressJobRuns()
      requires hideProgressPending
      modifies this`state, this`hideProgressPending
      ensures state == WithoutProgressBar(old(state)) && !hideProgressPending
    {
      state := WithoutProgressBar(state);
      hideProgressPending := false;
    }

    method UpdateNavState(canGoBack: bool, canGoForward: bool)
      modifies this`state
      ensures state == WithNavState(old(state), canGoBack, canGoForward)
    {
      state := WithNavState(state, canGoBack, canGoForward);
    }

    method UpdateAdBlockStats(enabled: bool, ads: int, popups: int)
      modifies this`state
      ensures state == WithAdBlockStats(old(state), enabled, ads, popups)
    {
      state := WithAdBlockStats(state, enabled, ads, popups);
    }

    method SetFullscreen(fullscreen: bool)
      modifies this`state
      ensures state == WithFullscreen(old(state), fullscreen)
    {
      state := WithFullscreen(state, fullscreen);
    }

    method UpdateThumbnail(bitmap: Option<nat>)
      modifies this`state
      ensures state == WithThumbnail(old(state), bitmap)
    {
      state := WithThumbnail(state, bitmap);
    }

    /** Shows the notification and starts its own clear job. */
    method ShowNotification(iconRes: int, message: string)
      modifies this`state, this`notificationTimers
      ensures state == WithNotification(old(state), iconRes, message)
      ensures notificationTimers == old(notificationTimers) + [message]
    {
      state := WithNotification(state, iconRes, message);
      notificationTimers := notificationTimers + [message];
    }

    /** The clear job at position `k` running after its delay. */
    method NotificationJobRuns(k: nat)
      requires k < |notificationTimers|
      modifies this`state, this`notificationTimers
      ensures state == ClearedNotification(old(state), old(notificationTimers)[k])
      ensures notificationTimers == old(notificationTimers)[..k] + old(notificationTimers)[k + 1..]
    {
      state := ClearedNotification(state, notificationTimers[k]);
      notificationTimers := notificationTimers[..k] + notificationTimers[k + 1..];
    }

    method ShowCursorMenu(x: int, y: int)
      modifies this`state
      ensures state == WithCursorMenuAt(old(state), x, y)
    {
      state := WithCursorMenuAt(state, x, y);
    }

    method HideCursorMenu()
      modifies this`state
      ensures state == WithoutCursorMenu(old(state))
    {
      state := WithoutCursorMenu(state);
    }

    method ShowLinkActions()
      modifies this`state
      ensures state == WithLinkActions(old(state))
    {
      state := WithLinkActions(state);
    }

    method HideLinkActions()
      modifies this`state
      ensures state == WithoutLinkActions(old(state))
    {
      state := WithoutLinkActions(state);
    }

    method ShowMenu()
      modifies this`state
      ensures state == WithMenu(old(state))
    {
      state := WithMenu(state);
    }

    method HideMenu()
      modifies this`state
      ensures state == WithoutMenu(old(state))
    {
      state := WithoutMenu(state);
    }

    method ToggleMenu()
      modifies this`state
      ensures state == MenuToggled(old(state))
    {
      state := MenuToggled(state);
    }
  }

  /** Reporting progress below 100 after a finished load cancels the pending
      hide: the bar stays visible however long one waits. */
  method ProgressRestartKeepsBarVisible(vm: BrowserUiViewModel, p: int)
    requires p < 100
    modifies vm
    ensures vm.state.isProgressVisible && !vm.hideProgressPending && vm.state.progress == p
  {
    vm.UpdateProgress(100);
    assert vm.hideProgressPending;
    vm.UpdateProgress(p);
  }
}
