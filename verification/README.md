# browkorf-tv core, modelled in Dafny

browkorf-tv is a web browser for Android TV. Two generations of its main screen live side by side: the current one under `org.mlm.browkorftv` and the legacy one under `com.phlox.tvwebbrowser`. This project models the decision logic of both and proves properties about it:

- the web-engine registry: registering providers, bootstrapping them once, choosing and initialising one;
- the tab list both main activities drive: opening, closing with the neighbour rule, restoring the current tab at start-up, the per-tab ad and popup counters, the popup-blocking policy, and the search and link-action decisions;
- the Compose browser screen: the back-press priority chain, the navigation back stack, and every transition of the browser UI state;
- keyboard shortcuts: stored bindings with their defaults, matching key events, firing on key up or long press, the key-capture dialog and how a binding is rendered;
- update checking: choosing a channel from the manifest, choosing the APK for the device ABI, the changelog shown, and both update view models (the once-a-day guards and the download state);
- the favicon pool: normalising an address, the cache/disk/network lookup, the nearest-size icon choice, the decode sample size and the file name made from the host's hash code;
- bookmarks and home-page slots: URL normalisation, the record an editor loads and the one it saves;
- the two history and home-page view models (legacy `MainViewModel` and Compose `BrowserDataViewModel`) and the legacy bookmarks dialog;
- a downloads list row, the settings view model, and the activity's permission and voice-search platform.

How the model is built:

- Code that computes a value is written as functions over datatypes.
- View models and other objects whose fields change are classes. Their methods state the whole new state.
- Loops in the source are methods with loop invariants, proved against a specification function.
- Storage is a log of commands (insert, update, delete) that methods append to. A query's answer comes in as an argument.
- Platform calls become parameters: URL host parsing, the same-day test on calendars, the web-URL pattern, URL encoding, engine initialisation outcomes.
- Coroutines become explicit steps. A delayed save is a pending job that a separate method (`SaveJobFires`) runs.

Modules: `Strings` (Kotlin string operations), `Records` (stored records and storage commands), `EngineFactory`, `Tabs`, `BrowserPolicy`, `BrowserScreen`, `BrowserUi`, `Shortcuts`, `Updates`, `Favicons`, `Bookmarks`, `MainVm`, `BrowserData`, `FavoritesDialogs`, `Downloads`, `Settings`, `Platform`.

Behaviour of the code that may be unexpected, which the model keeps:

- Closing a tab that is not the current one still switches to the closed tab's neighbour: position - 1, or position + 1 for the first tab. Both activities do this (`Tabs.BrowserTabs.CloseTab`, `Tabs.BrowserTabs.LegacyCloseTab`).
- Closing the only tab leaves exactly one tab only when the view for the new home tab can be created. Otherwise no tab is left.
- A link or image URL consisting of a single `"` makes the legacy link menu throw (`BrowserPolicy.SuggestActionsForLink`).
- Clearing a shortcut in the shortcuts screen removes its stored keys, so after a restart the action has its default key again (`Shortcuts.ShortcutsScreen.ClearKey`).
- On a fresh installation of the legacy activity, no notification time is stored yet, which reads as "notified today", so the start-up update check does not run (`Updates.AutoUpdateViewModel.StartupAutoCheck`).

- A page's request to open a link in a new tab always loads the page, and toggles the menu only when it asked to load at once: the current activity reordered the parameters of `openInNewTab` but not this call (`Tabs.BrowserTabs.OnOpenInNewTabRequested`).

The Findings section below lists the last four, each with a corrected definition.

## Model

| member | source | states |
|---|---|---|
| EngineFactory.Lookup | app/common/src/main/java/org/mlm/browkorftv/webengine/WebEngineFactory.kt:98 | a lookup finds a registered provider with exactly that name, and finds nothing iff no registered provider has the name |
| EngineFactory.Put | app/common/src/main/java/org/mlm/browkorftv/webengine/WebEngineFactory.kt:40-45 | the registered provider is in the registry; a new name is appended at the end; a known name keeps the registry's size |
| EngineFactory.PutExisting | app/common/src/main/java/org/mlm/browkorftv/webengine/WebEngineFactory.kt:40-43 | re-registering a known name keeps the registry's size and name order and makes the new provider the one found under that name |
| EngineFactory.PutNew | app/common/src/main/java/org/mlm/browkorftv/webengine/WebEngineFactory.kt:40-45 | registering a new name appends the provider at the end, so registration order is kept |
| EngineFactory.PutKeepsOthers | app/common/src/main/java/org/mlm/browkorftv/webengine/WebEngineFactory.kt:40-41 | registration keeps names unique and does not change what any other name finds |
| EngineFactory.SelectProvider | app/common/src/main/java/org/mlm/browkorftv/webengine/WebEngineFactory.kt:90-119 | no choice iff the registry is empty; a registered settings name selects that provider without correction; an unknown name selects the first provider and asks for the setting to be corrected |
| EngineFactory.Bootstrapped | app/common/src/main/java/org/mlm/browkorftv/webengine/WebEngineFactory.kt:56-77 | the bootstrap registry has unique names, at most two entries, is empty iff neither initializer class is present, holds the Gecko provider when present and starts with the WebView provider when the names differ |
| EngineFactory.VersionString | app/common/src/main/java/org/mlm/browkorftv/webengine/WebEngineFactory.kt:143-146 | "Not initialized" with no selected provider, else the provider's own version string |
| EngineFactory.WebEngineFactory.constructor | app/common/src/main/java/org/mlm/browkorftv/webengine/WebEngineFactory.kt:29-35 | empty registry, no selected provider, bootstrap not yet attempted |
| EngineFactory.WebEngineFactory.RegisterProvider | app/common/src/main/java/org/mlm/browkorftv/webengine/WebEngineFactory.kt:40-47 | the registry becomes the registration of the provider; it reports a replacement iff the name was registered, a replacement keeps the size, a new name is appended |
| EngineFactory.WebEngineFactory.EnsureProvidersRegistered | app/common/src/main/java/org/mlm/browkorftv/webengine/WebEngineFactory.kt:51-78 | the bootstrap runs iff the registry is empty and it never ran before; it then sets the flag and registers the available initializers; otherwise nothing changes |
| EngineFactory.WebEngineFactory.Initialize | app/common/src/main/java/org/mlm/browkorftv/webengine/WebEngineFactory.kt:80-123 | an empty registry after bootstrap fails with no providers and selects nothing; otherwise the selected provider is the settings one or the first, a fallback requests setWebEngine with the provider's index in the supported list, and the provider becomes the initialized one only if its own initialization succeeds; the bootstrap counts as attempted afterwards exactly when it had been attempted already or the registry was empty |
| EngineFactory.WebEngineFactory.CreateWebEngine | app/common/src/main/java/org/mlm/browkorftv/webengine/WebEngineFactory.kt:127-131 | fails with "not initialized" iff no provider is selected, else creates an engine of the selected provider for the tab |
| EngineFactory.WebEngineFactory.ClearCache | app/common/src/main/java/org/mlm/browkorftv/webengine/WebEngineFactory.kt:133-137 | fails with "not initialized" and clears nothing while no provider is selected, else clears exactly the selected provider's cache |
| EngineFactory.WebEngineFactory.OnThemeSettingUpdated | app/common/src/main/java/org/mlm/browkorftv/webengine/WebEngineFactory.kt:139-141 | a theme change reaches the selected provider, and is a no-op while none is selected |
| Tabs.Position | app/src/main/java/org/mlm/browkorftv/activity/main/MainActivity.kt:660 | the index of the tab with an id, -1 iff no tab has it |
| Tabs.InsertAt | app/src/main/java/org/mlm/browkorftv/activity/main/MainActivity.kt:648 | adding a tab at an index puts it there; tabs before keep their places and tabs after move up by one |
| Tabs.RemoveTab | app/src/main/java/org/mlm/browkorftv/activity/main/MainActivity.kt:674 | closing removes exactly the tab with that id and keeps the order of the rest; an unknown id changes nothing |
| Tabs.SelectOnly | app/src/main/java/org/mlm/browkorftv/activity/main/MainActivity.kt:678-687 | switching tabs marks exactly the chosen tab as selected and changes nothing else |
| Tabs.UpdateTab | app/src/main/java/org/mlm/browkorftv/activity/main/MainActivity.kt:1138-1144 | a callback's change to its tab replaces that tab and leaves every other tab as it was |
| Tabs.FirstSelected | app/src/main/java/org/mlm/browkorftv/activity/main/MainActivity.kt:612 | the position of the first tab marked selected, or the length when none is |
| Tabs.RestoredIndex | app/src/main/java/org/mlm/browkorftv/activity/main/MainActivity.kt:612 | at start-up the first tab marked selected is chosen, and the first tab when none is |
| Tabs.NeighbourIndex | app/src/main/java/org/mlm/browkorftv/activity/main/MainActivity.kt:670-671 | closing a tab switches to position-1 when position > 0, else to position+1 |
| Tabs.RequestedTabIndex | app/src/main/java/org/mlm/browkorftv/activity/main/MainActivity.kt:1007-1008 | a page-requested tab goes right after the current tab, or at the end when the current tab is not in the list |
| Tabs.UnselectedIds | app/src/main/java/com/phlox/tvwebbrowser/activity/main/MainActivity.kt:662-667 | exactly the ids of the tabs not marked selected |
| Tabs.TabByTitleIndex | app/src/main/java/com/phlox/tvwebbrowser/activity/main/MainActivity.kt:379-382 | a tab only for 0 <= index < size, and then the tab at that index |
| Tabs.PageStartUrl | app/src/main/java/org/mlm/browkorftv/activity/main/MainActivity.kt:1140 | the engine's URL when it has one, else the callback's URL, else the previous URL |
| Tabs.InsertAtIds | app/src/main/java/org/mlm/browkorftv/activity/main/MainActivity.kt:648 | inserting a tab inserts its id at the same place in the id list |
| Tabs.SelectOnlyIds | app/src/main/java/org/mlm/browkorftv/activity/main/MainActivity.kt:678-687 | switching tabs keeps the id list |
| Tabs.UpdateTabIds | app/src/main/java/org/mlm/browkorftv/activity/main/MainActivity.kt:1138-1144 | updating one tab keeps the id list |
| Tabs.RemoveTabIds | app/src/main/java/org/mlm/browkorftv/activity/main/MainActivity.kt:674 | removing a tab removes its id from the id list |
| Tabs.DistinctInsert | app/src/main/java/org/mlm/browkorftv/activity/main/MainActivity.kt:645-648 | adding a tab with a fresh id keeps the ids distinct |
| Tabs.DistinctRemove | app/src/main/java/org/mlm/browkorftv/activity/main/MainActivity.kt:674 | removing an id keeps the ids distinct, removes that id and keeps every other |
| Tabs.CloseKeepsNeighbour | app/src/main/java/org/mlm/browkorftv/activity/main/MainActivity.kt:662-674 | with two or more tabs the neighbour switched to exists, is not the closed tab, and stays in the list |
| Tabs.NeighbourId | app/src/main/java/org/mlm/browkorftv/activity/main/MainActivity.kt:670-671 | the tab switched to when closing among two or more tabs is in the list |
| Tabs.CloseSelectsCurrentOnly | app/src/main/java/org/mlm/browkorftv/activity/main/MainActivity.kt:657-674 | with distinct ids, whenever a tab stays current after closing it is in the new list, the closed tab is gone, and the current tab is the only one marked selected |
| Tabs.StartSelectsCurrentOnly | app/src/main/java/org/mlm/browkorftv/activity/main/MainActivity.kt:600-628 | whenever start-up chooses a tab, it is in the list and the only one marked selected; the ids are those restored plus the opened tab's id, first for the home page and last for an intent URL |
| Tabs.OpenSelectsNewOnly | app/src/main/java/org/mlm/browkorftv/activity/main/MainActivity.kt:644-649 | opening a tab with a fresh id and switching to it keeps the ids distinct, puts the new id at the index and leaves the new tab the only selected one |
| Tabs.BrowserTabs.constructor | app/src/main/java/org/mlm/browkorftv/activity/main/MainActivity.kt:601 | the restored tab list with no current tab and no recorded effects |
| Tabs.BrowserTabs.CurrentTab | app/src/main/java/org/mlm/browkorftv/activity/main/MainActivity.kt:1176 | the current tab is in the list and carries the current id, and is absent when no id is current |
| Tabs.BrowserTabs.ChangeTab | app/src/main/java/org/mlm/browkorftv/activity/main/MainActivity.kt:678-687 | the chosen tab becomes current and the only selected one; the ids are unchanged |
| Tabs.BrowserTabs.AddAndSelect | app/src/main/java/org/mlm/browkorftv/activity/main/MainActivity.kt:645-649 | the new tab gets the next id, lands at the index and becomes current and the only selected one |
| Tabs.BrowserTabs.RemoveFromList | app/src/main/java/org/mlm/browkorftv/activity/main/MainActivity.kt:674 | the tab leaves the list; the current tab is cleared only if it was that tab |
| Tabs.BrowserTabs.OpenInNewTab | app/src/main/java/org/mlm/browkorftv/activity/main/MainActivity.kt:638-655 | a null URL or a failed view creation changes nothing; otherwise a new tab with the next id is inserted at the index and selected, loaded when asked and the menu toggled when asked |
| Tabs.BrowserTabs.LegacyOpenInNewTab | app/src/main/java/com/phlox/tvwebbrowser/activity/main/MainActivity.kt:512-535 | a failed view creation changes nothing; otherwise a new tab with the next id is inserted at the index and becomes current and the only selected tab, the id counter moves on by one, its URL is loaded and one hide of the overlay is requested; the other effects are unchanged |
| Tabs.BrowserTabs.CloseAmongMany | app/src/main/java/org/mlm/browkorftv/activity/main/MainActivity.kt:670-674 | with two or more tabs the list becomes the old list with only the neighbour selected and the closed tab removed, and the neighbour becomes current |
| Tabs.BrowserTabs.OpenHomeFirst | app/src/main/java/org/mlm/browkorftv/activity/main/MainActivity.kt:663-668 | a home-page tab is opened at index 0 and becomes current, unless its view cannot be created |
| Tabs.BrowserTabs.CloseOnlyTab | app/src/main/java/org/mlm/browkorftv/activity/main/MainActivity.kt:663-674 | closing the only tab gives the list `TabsAfterClose` describes: a selected home-page tab at 0 when its view can be created, then the closed tab removed; the id counter, current tab, loads and menu effects follow |
| Tabs.BrowserTabs.CloseTabCore | app/src/main/java/org/mlm/browkorftv/activity/main/MainActivity.kt:657-674 | the shared closing rule: on a non-empty list the new list, current tab and id counter are exactly `TabsAfterClose` and `CurrentAfterClose`, with the home tab's load for a single tab; an empty list is the source's index error and changes nothing |
| Tabs.BrowserTabs.CloseTab | app/src/main/java/org/mlm/browkorftv/activity/main/MainActivity.kt:657-676 | a null tab or an empty list changes nothing; otherwise the list and current tab of the closing rule, the home tab's load when one opens, and the menu toggled once more than the rule does |
| Tabs.BrowserTabs.LegacyCloseTab | app/src/main/java/com/phlox/tvwebbrowser/activity/main/MainActivity.kt:537-559 | the legacy close: the same list, current tab, id counter and loads as the closing rule, no toggle, and one hide request more than the rule makes |
| Tabs.BrowserTabs.Navigate | app/src/main/java/org/mlm/browkorftv/activity/main/MainActivity.kt:857-865 | with a current tab only its URL changes and that URL is loaded in it; with none, a new selected tab at 0 loads the URL and the menu is toggled; without a view nothing changes |
| Tabs.BrowserTabs.Search | app/src/main/java/org/mlm/browkorftv/activity/main/MainActivity.kt:867-889 | the outcome is the search decision: the web address for text that looks like a URL, else the engine URL with the encoded query in place of the placeholder; an encoding failure changes nothing, and otherwise the decided URL is navigated to as `Navigate` states |
| Tabs.BrowserTabs.LoadState | app/src/main/java/org/mlm/browkorftv/activity/main/MainActivity.kt:600-628 | the list, current tab, loads and id counter are exactly those of the start-up choice (`StartTabs`, `StartCurrent`, `StartLoads`); the menu is toggled once for an opened tab and once more when the current tab is missing or shows the home page |
| Tabs.BrowserTabs.StartTab | app/src/main/java/org/mlm/browkorftv/activity/main/MainActivity.kt:600-622 | the tab choice at start-up: the list, current tab, loads and id counter of `StartTabs`, `StartCurrent` and `StartLoads`, and one menu toggle for an opened tab |
| Tabs.BrowserTabs.ToggleMenuOnHome | app/src/main/java/org/mlm/browkorftv/activity/main/MainActivity.kt:624-628 | the menu is toggled exactly when no tab is current or the current tab shows the home page |
| Tabs.BrowserTabs.LoadInCurrentTab | app/src/main/java/org/mlm/browkorftv/activity/main/MainActivity.kt:859-861 | the current tab takes the URL and it is loaded there; every other tab and the ids are unchanged |
| Tabs.BrowserTabs.CloseOnlyTabOpeningHome | app/src/main/java/org/mlm/browkorftv/activity/main/MainActivity.kt:663-674 | closing the only tab when the home tab's view can be created: the home tab with the next id is first and current, the closed tab is removed and the home page is loaded |
| Tabs.BrowserTabs.FirstSelectedIndex | app/src/main/java/com/phlox/tvwebbrowser/activity/main/MainActivity.kt:475-485 | the loop finds the restored index |
| Tabs.BrowserTabs.LegacyLoadState | app/src/main/java/com/phlox/tvwebbrowser/activity/main/MainActivity.kt:467-498 | the list, current tab, loads and id counter are exactly those of the start-up choice (`StartTabs`, `StartCurrent`, `StartLoads`); the overlay gets one hide request for an opened tab, and is shown exactly when the current tab is missing or shows the home page; toggles and statistics are unchanged |
| Tabs.BrowserTabs.LegacyStartTab | app/src/main/java/com/phlox/tvwebbrowser/activity/main/MainActivity.kt:467-492 | the legacy tab choice at start-up: the list, current tab, loads and id counter of `StartTabs`, `StartCurrent` and `StartLoads`, and one hide request for an opened tab |
| Tabs.BrowserTabs.ShowMenuOnHome | app/src/main/java/com/phlox/tvwebbrowser/activity/main/MainActivity.kt:494-497 | the overlay is shown exactly when no tab is current or the current tab shows the home page |
| Tabs.BrowserTabs.OnOpenInNewTabRequested | app/src/main/java/org/mlm/browkorftv/activity/main/MainActivity.kt:1003-1010 | as written: a new tab for the URL with the next id goes right after the current tab (at the end without one), becomes current and the only selected tab; the page is always loaded and the menu is toggled only when `navigateImmediately` is set, because the flags reach the reordered parameters of `openInNewTab` (lines 638-643) by position; a failed view creation changes nothing |
| Tabs.BrowserTabs.OnOpenInNewTabRequestedCorrected | app/src/main/java/org/mlm/browkorftv/activity/main/MainActivity.kt:1003-1010 | the same new tab, with the flags as meant: the page is loaded iff `navigateImmediately` is set and the menu is toggled once |
| Tabs.BrowserTabs.OnCreateWindow | app/src/main/java/org/mlm/browkorftv/activity/main/MainActivity.kt:1211-1223 | a blocked window opens nothing and is exactly `onBlockedDialog` on the caller (its tab updated by `UpdateTab`, the statistics shown); otherwise, with a view and a current tab, a blank tab with the next id is inserted right after the current one and becomes current and the only selected tab, with no load and no menu change; else nothing changes |
| Tabs.BrowserTabs.OnBlockedDialog | app/src/main/java/org/mlm/browkorftv/activity/main/MainActivity.kt:1201-1209 | the caller's blocked-popup count goes up by one and the stats shown carry the new counts |
| Tabs.BrowserTabs.OnBlockedAd | app/src/main/java/org/mlm/browkorftv/activity/main/MainActivity.kt:1195-1199 | the blocked-ad count goes up by one only while global ad blocking is on |
| Tabs.BrowserTabs.OnPageStarted | app/src/main/java/org/mlm/browkorftv/activity/main/MainActivity.kt:1138-1144 | the caller's URL becomes the page-start URL, both counters reset to 0, and the URL is shown |
| Tabs.BrowserTabs.IsAdBlockingEnabled | app/src/main/java/org/mlm/browkorftv/activity/main/MainActivity.kt:1175-1176 | the current tab's override when it has one, else the global setting |
| Tabs.BrowserTabs.ToggleAdBlockForTab | app/src/main/java/org/mlm/browkorftv/activity/main/MainActivity.kt:824-833 | the current tab's override becomes the negation of the effective setting, so the effective setting flips; with no current tab nothing changes |
| Tabs.BrowserTabs.SyncTabWithTitles | app/src/main/java/com/phlox/tvwebbrowser/activity/main/MainActivity.kt:973-985 | a selected tab at the title index leaves everything unchanged; an unselected one becomes current and the only selected tab; with no tab there, a selected home tab with the next id is inserted at 0 for a negative index, else at the end, loaded, with one hide request; without a view nothing changes |
| Tabs.BrowserTabs.OnTrimMemory | app/src/main/java/com/phlox/tvwebbrowser/activity/main/MainActivity.kt:662-669 | exactly the unselected tabs are trimmed, in list order |
| EngineFactory.WebEngineFactory.GetWebEngineVersionString | app/common/src/main/java/org/mlm/browkorftv/webengine/WebEngineFactory.kt:37-38 | while no provider is initialized (the state IsInitialized tests) the answer is "Not initialized"; afterwards it is the initialized provider's version string (also lines 143-146 of the same file) |
| BrowserPolicy.BlocksAtLevel | app/src/main/java/org/mlm/browkorftv/activity/main/MainActivity.kt:1187-1192 | NONE never blocks, DIALOGS blocks exactly dialogs, NEW_AUTO_OPENED_TABS blocks dialogs and windows opened without a user gesture, any other level blocks everything |
| BrowserPolicy.ShouldBlockNewWindow | app/src/main/java/org/mlm/browkorftv/activity/main/MainActivity.kt:1184-1193 | the decision follows the host's level, or the default level when the tab has no host configuration; the legacy copy at app/src/main/java/com/phlox/tvwebbrowser/activity/main/MainActivity.kt:1199-1211 is the same table |
| BrowserPolicy.BlockingMonotone | app/src/main/java/org/mlm/browkorftv/activity/main/MainActivity.kt:1187-1192 | a stricter level blocks every window that a laxer level blocks |
| BrowserPolicy.BlockingByKind | app/src/main/java/org/mlm/browkorftv/activity/main/MainActivity.kt:1187-1192 | a dialog without gesture is blocked at every level but NONE; a gesture-opened tab only at the strictest level |
| BrowserPolicy.IsDialogsBlockingEnabled | app/src/main/java/org/mlm/browkorftv/activity/main/MainActivity.kt:1178-1182 | dialogs are blocked iff the tab is not on the home page and the effective level is not NONE |
| BrowserPolicy.AddressFor | app/src/main/java/org/mlm/browkorftv/activity/main/MainActivity.kt:875-877 | the address always names a scheme and ends with the typed text; text that already has "://" is kept as is |
| BrowserPolicy.Search | app/src/main/java/org/mlm/browkorftv/activity/main/MainActivity.kt:867-889 | URL-like text (web-URL match, or trimmed lower-case text starting with http:// or https://) navigates to its address; other text fails on an encoding error and otherwise navigates to the engine URL with every "[query]" replaced by the encoded text |
| BrowserPolicy.SearchAddress | app/src/main/java/org/mlm/browkorftv/activity/main/MainActivity.kt:871-878 | URL-like text navigates to an address with a scheme that ends with the text, and to the text itself iff it contains "://" |
| BrowserPolicy.SearchWithoutPlaceholder | app/src/main/java/org/mlm/browkorftv/activity/main/MainActivity.kt:887 | an engine URL without "[query]" is navigated to unchanged |
| BrowserPolicy.ReplaceAfterPlainPrefix | app/src/main/java/org/mlm/browkorftv/activity/main/MainActivity.kt:887 | a prefix without '[' is left alone by the replacement |
| BrowserPolicy.SearchFillsTrailingPlaceholder | app/src/main/java/org/mlm/browkorftv/activity/main/MainActivity.kt:880-888 | an engine URL ending in "[query]" becomes the prefix followed by the encoded query |
| BrowserPolicy.TrimCharStart | app/src/main/java/org/mlm/browkorftv/activity/main/MainActivity.kt:158 | removes exactly the leading run of the character |
| BrowserPolicy.TrimCharEnd | app/src/main/java/org/mlm/browkorftv/activity/main/MainActivity.kt:158 | removes exactly the trailing run of the character |
| BrowserPolicy.TrimChar | app/src/main/java/org/mlm/browkorftv/activity/main/MainActivity.kt:158 | the result neither starts nor ends with the character |
| BrowserPolicy.TrimCharDropsOnlyC | app/src/main/java/org/mlm/browkorftv/activity/main/MainActivity.kt:158 | trimming keeps a contiguous slice of the input and drops only copies of the character around it |
| BrowserPolicy.CurrentLinkUrl | app/src/main/java/org/mlm/browkorftv/activity/main/MainActivity.kt:156-159 | the link URL exists iff there is a context menu with a link or source URI; the link URI wins over the source URI, with quote characters trimmed from both ends |
| BrowserPolicy.LinkCapabilities | app/src/main/java/org/mlm/browkorftv/activity/main/MainActivity.kt:423-430 | hasUrl iff the URL is present and not blank; isWebUrl iff hasUrl and it starts with http:// or https:// |
| BrowserPolicy.WebUrlImpliesUrl | app/src/main/java/org/mlm/browkorftv/activity/main/MainActivity.kt:426-429 | isWebUrl implies hasUrl, and isWebUrl holds exactly for a present http(s) URL |
| BrowserPolicy.LegacyStripQuotesAsWritten | app/src/main/java/com/phlox/tvwebbrowser/activity/main/MainActivity.kt:1376-1379 | the legacy strip, as written, fails with an index error exactly on the one-character string "\"" and leaves unquoted text alone |
| BrowserPolicy.LegacyStripThrowsOnLoneQuote | app/src/main/java/com/phlox/tvwebbrowser/activity/main/MainActivity.kt:1377-1378 | a lone quote passes both the starts-with and ends-with tests and then fails |
| BrowserPolicy.StripQuotePair | app/src/main/java/com/phlox/tvwebbrowser/activity/main/MainActivity.kt:1376-1379 | one pair of surrounding quotes is removed only when the text has at least two characters and starts and ends with a quote; elsewhere it agrees with the legacy strip |
| BrowserPolicy.SuggestActionsForLink | app/src/main/java/com/phlox/tvwebbrowser/activity/main/MainActivity.kt:1376-1392 | the link URL, else the source URL, goes through the quote strip as written: a lone quote throws and no menu is built; otherwise open, open-externally and download show together, exactly for an http(s) URL after the strip, and copy and share show exactly when a URL exists |
| BrowserPolicy.SelectedTextActions | app/src/main/java/org/mlm/browkorftv/activity/main/MainActivity.kt:1320-1336 | copy comes first; cut and delete iff editable; paste iff editable with a clip item; share always; search iff the text has no newline and then last; the actions appear in that fixed order |
| BrowserScreen.BrowserBackAction | app/src/main/java/org/mlm/browkorftv/ui/screens/BrowserScreen.kt:199-227 | exactly one action per back press, by priority: exit fullscreen, hide link actions, hide the cursor menu, hide the menu, let cursor mode consume it, else show the menu; each action is chosen iff all higher ones do not apply |
| BrowserScreen.AfterBack | app/src/main/java/org/mlm/browkorftv/ui/screens/BrowserScreen.kt:199-227 | exiting fullscreen (done by the engine) and a consumed press leave the UI state as it was; showing the menu makes it visible |
| BrowserScreen.OverlayCount | app/src/main/java/org/mlm/browkorftv/ui/screens/BrowserScreen.kt:149-151 | the number of open overlays, at most three, zero iff menu, cursor menu and link actions are all hidden |
| BrowserScreen.BackClosesOneOverlay | app/src/main/java/org/mlm/browkorftv/ui/screens/BrowserScreen.kt:199-227 | outside fullscreen a back press with overlays open closes exactly one of them and changes one field; with none open it is consumed or shows the menu and changes only the menu flag |
| BrowserScreen.BackPressesCloseAll | app/src/main/java/org/mlm/browkorftv/ui/screens/BrowserScreen.kt:199-227 | with all three overlays open, three presses close them in the order link actions, cursor menu, menu |
| BrowserScreen.OverlayEffect | app/src/main/java/org/mlm/browkorftv/ui/screens/BrowserScreen.kt:140-159 | the effect does nothing off the browser page; on it the cursor is enabled and the page focused together, exactly when no overlay is active |
| BrowserScreen.FullscreenShowsNoOverlay | app/src/main/java/org/mlm/browkorftv/ui/screens/BrowserScreen.kt:187 | fullscreen shows neither menu nor cursor menu nor link actions and keeps the cursor enabled; otherwise each is shown exactly when its flag is set (also lines 316, 326 of the same file) |
| BrowserScreen.Navigator.constructor | app/src/main/java/org/mlm/browkorftv/ui/screens/BrowserScreen.kt:98 | the back stack starts as [Browser] |
| BrowserScreen.Navigator.Top | app/src/main/java/org/mlm/browkorftv/ui/screens/BrowserScreen.kt:100 | the top entry is the last one, and it is Browser iff the stack has one entry |
| BrowserScreen.Navigator.Open | app/src/main/java/org/mlm/browkorftv/ui/screens/BrowserScreen.kt:258-262 | opening a screen pushes its key (also lines 373-374 of the same file) |
| BrowserScreen.Navigator.UnhandledBack | app/src/main/java/org/mlm/browkorftv/ui/screens/BrowserScreen.kt:167-174 | an unhandled back pops the top entry when the stack has more than one, else asks to close the window |
| BrowserScreen.Navigator.BrowserBack | app/src/main/java/org/mlm/browkorftv/ui/screens/BrowserScreen.kt:199-227 | the browser page's back handler performs the chosen action on the UI state, asks the engine to exit fullscreen or refocuses the page where the source does, and leaves the stack alone |
| BrowserScreen.Navigator.LeaveScreen | app/src/main/java/org/mlm/browkorftv/ui/screens/BrowserScreen.kt:339-392 | leaving History, Downloads, Favorites, Settings or Shortcuts pops one entry and shows the menu |
| BrowserScreen.Navigator.FinishBookmarkEditor | app/src/main/java/org/mlm/browkorftv/ui/screens/BrowserScreen.kt:396-402 | finishing the bookmark editor pops one entry and does not show the menu |
| BrowserScreen.Navigator.PickUrl | app/src/main/java/org/mlm/browkorftv/ui/screens/BrowserScreen.kt:343-372 | picking a URL in History or Favorites navigates to it, resets the stack to exactly [Browser] and hides the menu |
| BrowserUi.Initial | app/src/main/java/org/mlm/browkorftv/activity/main/BrowserUiViewModel.kt:14-38 | the state's defaults: empty URL, zero progress and counters, ad blocking on, every flag off, no thumbnail, no notification |
| BrowserUi.NoChangeMeansEqual | app/src/main/java/org/mlm/browkorftv/activity/main/BrowserUiViewModel.kt:53-137 | two states with no differing field are equal, so "changes only these fields" pins down a transition |
| BrowserUi.WithUrl | app/src/main/java/org/mlm/browkorftv/activity/main/BrowserUiViewModel.kt:53-55 | sets the URL and changes nothing else |
| BrowserUi.WithIncognito | app/src/main/java/org/mlm/browkorftv/activity/main/BrowserUiViewModel.kt:57-59 | sets incognito and changes nothing else |
| BrowserUi.WithAdBlockEnabled | app/src/main/java/org/mlm/browkorftv/activity/main/BrowserUiViewModel.kt:61-64 | sets the ad-block flag and leaves the counters alone |
| BrowserUi.WithProgress | app/src/main/java/org/mlm/browkorftv/activity/main/BrowserUiViewModel.kt:68 | sets the progress and shows the bar, nothing else |
| BrowserUi.WithoutProgressBar | app/src/main/java/org/mlm/browkorftv/activity/main/BrowserUiViewModel.kt:73 | hides the bar and keeps the progress value |
| BrowserUi.WithNavState | app/src/main/java/org/mlm/browkorftv/activity/main/BrowserUiViewModel.kt:78-80 | sets both navigation flags and nothing else |
| BrowserUi.WithAdBlockStats | app/src/main/java/org/mlm/browkorftv/activity/main/BrowserUiViewModel.kt:82-90 | sets the enabled flag and both counters, and nothing else |
| BrowserUi.WithFullscreen | app/src/main/java/org/mlm/browkorftv/activity/main/BrowserUiViewModel.kt:92-94 | sets fullscreen and nothing else |
| BrowserUi.WithThumbnail | app/src/main/java/org/mlm/browkorftv/activity/main/BrowserUiViewModel.kt:96-98 | sets the thumbnail and nothing else |
| BrowserUi.WithNotification | app/src/main/java/org/mlm/browkorftv/activity/main/BrowserUiViewModel.kt:101 | shows exactly that notification and changes nothing else |
| BrowserUi.ClearedNotification | app/src/main/java/org/mlm/browkorftv/activity/main/BrowserUiViewModel.kt:105-107 | the delayed clear removes the notification only if its message is still the one shown, and is otherwise a no-op |
| BrowserUi.WithCursorMenuAt | app/src/main/java/org/mlm/browkorftv/activity/main/BrowserUiViewModel.kt:111-113 | shows the cursor menu at exactly (x, y) |
| BrowserUi.WithoutCursorMenu | app/src/main/java/org/mlm/browkorftv/activity/main/BrowserUiViewModel.kt:115-117 | hides the cursor menu and nothing else |
| BrowserUi.WithLinkActions | app/src/main/java/org/mlm/browkorftv/activity/main/BrowserUiViewModel.kt:119-121 | shows link actions and hides the cursor menu in one step |
| BrowserUi.WithoutLinkActions | app/src/main/java/org/mlm/browkorftv/activity/main/BrowserUiViewModel.kt:123-125 | hides link actions and nothing else |
| BrowserUi.WithMenu | app/src/main/java/org/mlm/browkorftv/activity/main/BrowserUiViewModel.kt:127-129 | shows the menu and nothing else |
| BrowserUi.WithoutMenu | app/src/main/java/org/mlm/browkorftv/activity/main/BrowserUiViewModel.kt:131-133 | hides the menu and nothing else |
| BrowserUi.MenuToggled | app/src/main/java/org/mlm/browkorftv/activity/main/BrowserUiViewModel.kt:135-137 | negates the menu flag and changes exactly that field |
| BrowserUi.ToggleTwice | app/src/main/java/org/mlm/browkorftv/activity/main/BrowserUiViewModel.kt:135-137 | toggling twice restores the state |
| BrowserUi.ToggleIsShowOrHide | app/src/main/java/org/mlm/browkorftv/activity/main/BrowserUiViewModel.kt:127-137 | a toggle is a hide when the menu is visible and a show when it is not |
| BrowserUi.ShowHideLastWins | app/src/main/java/org/mlm/browkorftv/activity/main/BrowserUiViewModel.kt:127-133 | show and hide are idempotent, and of two the later one wins |
| BrowserUi.LinkActionsCloseCursorMenu | app/src/main/java/org/mlm/browkorftv/activity/main/BrowserUiViewModel.kt:111-125 | after showing link actions over a cursor menu, the cursor menu stays closed once link actions are hidden, and its position is kept |
| BrowserUi.NotificationClearGuard | app/src/main/java/org/mlm/browkorftv/activity/main/BrowserUiViewModel.kt:100-109 | the first notification's clear does not remove a newer notification, while the newer one's clear does |
| BrowserUi.BrowserUiViewModel.constructor | app/src/main/java/org/mlm/browkorftv/activity/main/BrowserUiViewModel.kt:48-51 | the initial state, no pending hide and no pending clears |
| BrowserUi.BrowserUiViewModel.UpdateUrl | app/src/main/java/org/mlm/browkorftv/activity/main/BrowserUiViewModel.kt:53-55 | the state becomes WithUrl of the old state |
| BrowserUi.BrowserUiViewModel.SetIncognitoMode | app/src/main/java/org/mlm/browkorftv/activity/main/BrowserUiViewModel.kt:57-59 | the state becomes WithIncognito of the old state |
| BrowserUi.BrowserUiViewModel.SetAdBlockEnabled | app/src/main/java/org/mlm/browkorftv/activity/main/BrowserUiViewModel.kt:61-64 | the state becomes WithAdBlockEnabled of the old state |
| BrowserUi.BrowserUiViewModel.UpdateProgress | app/src/main/java/org/mlm/browkorftv/activity/main/BrowserUiViewModel.kt:66-76 | the state becomes WithProgress; a hide is pending iff progress >= 100, so an earlier pending hide is cancelled |
| BrowserUi.BrowserUiViewModel.HideProgressJobRuns | app/src/main/java/org/mlm/browkorftv/activity/main/BrowserUiViewModel.kt:71-74 | the pending hide hides the bar and is gone |
| BrowserUi.BrowserUiViewModel.UpdateNavState | app/src/main/java/org/mlm/browkorftv/activity/main/BrowserUiViewModel.kt:78-80 | the state becomes WithNavState of the old state |
| BrowserUi.BrowserUiViewModel.UpdateAdBlockStats | app/src/main/java/org/mlm/browkorftv/activity/main/BrowserUiViewModel.kt:82-90 | the state becomes WithAdBlockStats of the old state |
| BrowserUi.BrowserUiViewModel.SetFullscreen | app/src/main/java/org/mlm/browkorftv/activity/main/BrowserUiViewModel.kt:92-94 | the state becomes WithFullscreen of the old state |
| BrowserUi.BrowserUiViewModel.UpdateThumbnail | app/src/main/java/org/mlm/browkorftv/activity/main/BrowserUiViewModel.kt:96-98 | the state becomes WithThumbnail of the old state |
| BrowserUi.BrowserUiViewModel.ShowNotification | app/src/main/java/org/mlm/browkorftv/activity/main/BrowserUiViewModel.kt:100-109 | shows the notification and schedules one guarded clear for its message |
| BrowserUi.BrowserUiViewModel.NotificationJobRuns | app/src/main/java/org/mlm/browkorftv/activity/main/BrowserUiViewModel.kt:103-108 | a scheduled clear runs once with its own message |
| BrowserUi.BrowserUiViewModel.ShowCursorMenu | app/src/main/java/org/mlm/browkorftv/activity/main/BrowserUiViewModel.kt:111-113 | the state becomes WithCursorMenuAt of the old state |
| BrowserUi.BrowserUiViewModel.HideCursorMenu | app/src/main/java/org/mlm/browkorftv/activity/main/BrowserUiViewModel.kt:115-117 | the state becomes WithoutCursorMenu of the old state |
| BrowserUi.BrowserUiViewModel.ShowLinkActions | app/src/main/java/org/mlm/browkorftv/activity/main/BrowserUiViewModel.kt:119-121 | the state becomes WithLinkActions of the old state |
| BrowserUi.BrowserUiViewModel.HideLinkActions | app/src/main/java/org/mlm/browkorftv/activity/main/BrowserUiViewModel.kt:123-125 | the state becomes WithoutLinkActions of the old state |
| BrowserUi.BrowserUiViewModel.ShowMenu | app/src/main/java/org/mlm/browkorftv/activity/main/BrowserUiViewModel.kt:127-129 | the state becomes WithMenu of the old state |
| BrowserUi.BrowserUiViewModel.HideMenu | app/src/main/java/org/mlm/browkorftv/activity/main/BrowserUiViewModel.kt:131-133 | the state becomes WithoutMenu of the old state |
| BrowserUi.BrowserUiViewModel.ToggleMenu | app/src/main/java/org/mlm/browkorftv/activity/main/BrowserUiViewModel.kt:135-137 | the state becomes MenuToggled of the old state |
| BrowserUi.ProgressRestartKeepsBarVisible | app/src/main/java/org/mlm/browkorftv/activity/main/BrowserUiViewModel.kt:66-76 | progress below 100 after a finished load cancels the pending hide, so the bar stays visible |
| Shortcuts.Ordinal | app/src/main/java/org/mlm/browkorftv/singleton/shortcuts/Shortcut.kt:14-31 | each shortcut's place in declaration order, the order matching and firing follow |
| Shortcuts.DefaultKeyCode | app/src/main/java/org/mlm/browkorftv/singleton/shortcuts/Shortcut.kt:14-31 | the default key is 0 (unassigned) exactly for NAVIGATE_BACK and NAVIGATE_HOME |
| Shortcuts.DefaultBinding | app/src/main/java/org/mlm/browkorftv/singleton/shortcuts/Shortcut.kt:10-13 | every default binding has the default key, modifiers 0 and no long press |
| Shortcuts.KeysDistinct | app/src/main/java/org/mlm/browkorftv/singleton/shortcuts/Shortcut.kt:14-31 | different shortcuts use different preference keys, so writing one shortcut's keys never touches another's |
| Shortcuts.StoredBinding | app/src/main/java/org/mlm/browkorftv/singleton/shortcuts/ShortcutMgr.kt:40-43 | each missing preference falls back to its default: the key to the enum default, modifiers to 0, long press to false; a stored key is used as stored |
| Shortcuts.EmptyPrefsGiveDefaults | app/src/main/java/org/mlm/browkorftv/singleton/shortcuts/ShortcutMgr.kt:37-46 | with no stored preferences every binding is the enum default |
| Shortcuts.LoadAllBindings | app/src/main/java/org/mlm/browkorftv/singleton/shortcuts/ShortcutMgr.kt:37-46 | after the load every shortcut has a binding, the one its preferences give |
| Shortcuts.NewBinding | app/src/main/java/org/mlm/browkorftv/singleton/shortcuts/ShortcutMgr.kt:56-85 | key 0 gives Binding(0, 0, false) whatever modifiers or long press were passed; any other key gives exactly the binding passed |
| Shortcuts.ClearedShortcutRevivesAfterRestart | app/src/main/java/org/mlm/browkorftv/singleton/shortcuts/ShortcutMgr.kt:64-75 | as written, clearing MENU removes its preferences, so the next load gives it KEYCODE_MENU back instead of the unassigned binding |
| Shortcuts.PrefsAfterUpdateAsWritten | app/src/main/java/org/mlm/browkorftv/singleton/shortcuts/ShortcutMgr.kt:64-85 | the preferences as written: for a non-zero key the same as the corrected write; for key 0 the stored keys are gone, so a reload gives the action's default binding |
| Shortcuts.PrefsAfterUpdate | app/src/main/java/org/mlm/browkorftv/singleton/shortcuts/ShortcutMgr.kt:64-85 | the corrected preferences: the next load gives the updated shortcut exactly the binding the update set |
| Shortcuts.UpdateSurvivesRestart | app/src/main/java/org/mlm/browkorftv/singleton/shortcuts/ShortcutMgr.kt:58-86 | with the corrected write, reloading gives the updated shortcut its new binding and every other shortcut its old one |
| Shortcuts.UpdateKeepsOther | app/src/main/java/org/mlm/browkorftv/singleton/shortcuts/ShortcutMgr.kt:77-81 | writing one shortcut's three preference keys leaves every other shortcut's stored binding unchanged |
| Shortcuts.EventModifiers | app/src/main/java/org/mlm/browkorftv/singleton/shortcuts/ShortcutMgr.kt:92-96 | only the ALT, CTRL and SHIFT bits survive, each as the normalised meta state has it |
| Shortcuts.MatchesFrom | app/src/main/java/org/mlm/browkorftv/singleton/shortcuts/ShortcutMgr.kt:101-104 | the filter keeps exactly the matching shortcuts from a position on, in declaration order |
| Shortcuts.ShortcutsForEvent | app/src/main/java/org/mlm/browkorftv/singleton/shortcuts/ShortcutMgr.kt:98-105 | a shortcut is listed iff it has a binding with a non-zero key equal to the event's and modifiers equal to the masked modifiers; the list is in declaration order |
| Shortcuts.AnyFrom | app/src/main/java/org/mlm/browkorftv/singleton/shortcuts/ShortcutMgr.kt:110-113 | some shortcut from a position on matches iff the answer is true |
| Shortcuts.IsAnyShortcutForEvent | app/src/main/java/org/mlm/browkorftv/singleton/shortcuts/ShortcutMgr.kt:107-114 | holds iff the match list is non-empty |
| Shortcuts.FirstFiring | app/src/main/java/org/mlm/browkorftv/singleton/shortcuts/ShortcutMgr.kt:150-158 | the first tracked shortcut with a binding of the wanted press kind and the event's modifiers, or -1 iff there is none |
| Shortcuts.ShortcutMgr.constructor | app/src/main/java/org/mlm/browkorftv/singleton/shortcuts/ShortcutMgr.kt:32-35 | bindings loaded from the preferences, nothing tracked, nothing posted |
| Shortcuts.ShortcutMgr.BindingFor | app/src/main/java/org/mlm/browkorftv/singleton/shortcuts/ShortcutMgr.kt:48-53 | the binding in the map, else the enum default |
| Shortcuts.ShortcutMgr.UpdateBindingAsWritten | app/src/main/java/org/mlm/browkorftv/singleton/shortcuts/ShortcutMgr.kt:58-86 | the update as written: the map gets the new binding, and a key 0 removes the preferences |
| Shortcuts.ShortcutMgr.UpdateBinding | app/src/main/java/org/mlm/browkorftv/singleton/shortcuts/ShortcutMgr.kt:58-86 | the corrected update: the map gets the new binding and the preferences store it, so the map always agrees with what a reload would give |
| Shortcuts.ShortcutMgr.FireFirstTracked | app/src/main/java/org/mlm/browkorftv/singleton/shortcuts/ShortcutMgr.kt:150-158 | the loop posts the first firing tracked shortcut and stops tracking, and reports whether one fired; otherwise nothing changes |
| Shortcuts.ShortcutMgr.OnKeyUp | app/src/main/java/org/mlm/browkorftv/singleton/shortcuts/ShortcutMgr.kt:145-160 | nothing tracked means not handled; otherwise the first tracked short-press shortcut with the event's modifiers is posted and tracking cleared |
| Shortcuts.ShortcutMgr.OnKeyLongPress | app/src/main/java/org/mlm/browkorftv/singleton/shortcuts/ShortcutMgr.kt:162-181 | the mirror image of key-up, for long-press bindings |
| Shortcuts.ShortcutMgr.OnKeyDown | app/src/main/java/org/mlm/browkorftv/singleton/shortcuts/ShortcutMgr.kt:133-143 | no match: not handled and tracking unchanged; otherwise the match list is tracked and a short press is handled, while a long press goes on to the long-press rule |
| Shortcuts.ShortcutMgr.Handle | app/src/main/java/org/mlm/browkorftv/singleton/shortcuts/ShortcutMgr.kt:133-189 | actions other than DOWN and UP are not handled and change nothing; DOWN behaves exactly as key-down (including the long-press hand-off) and UP exactly as key-up; at most one shortcut is posted |
| Shortcuts.PressFiresBoundShortcut | app/src/main/java/org/mlm/browkorftv/singleton/shortcuts/ShortcutMgr.kt:98-158 | pressing a bound short-press key with its modifiers lists that shortcut, and some tracked shortcut fires on key-up |
| Shortcuts.RemovePrefix | app/src/main/java/org/mlm/browkorftv/singleton/shortcuts/Shortcut.kt:52 | strips "KEYCODE_" only when the name starts with it |
| Shortcuts.ModifierPrefix | app/src/main/java/org/mlm/browkorftv/singleton/shortcuts/Shortcut.kt:46-50 | empty iff no modifier bit is set; otherwise exactly "ALT+", "CTRL+", "SHIFT+" in that order, each present iff its bit is set (the text is pinned by its length and the position of each part) |
| Shortcuts.ModifierNames | app/src/main/java/org/mlm/browkorftv/singleton/shortcuts/Shortcut.kt:47-49 | the same text built from the three flags: "ALT+" at the start iff ALT, "CTRL+" right after it iff CTRL, "SHIFT+" at the end iff SHIFT, and nothing else |
| Shortcuts.ModifierPrefixInjective | app/src/main/java/org/mlm/browkorftv/singleton/shortcuts/Shortcut.kt:46-50 | two modifier states render the same prefix exactly when they set the same ALT, CTRL and SHIFT bits |
| Shortcuts.ShortcutKeysToString | app/src/main/java/org/mlm/browkorftv/singleton/shortcuts/Shortcut.kt:34-54 | key 0 renders as "—"; otherwise the text ends with the key name without "KEYCODE_", starts with the long-press label and a space for a long-press binding, has the modifier prefix right after that (at the start otherwise), and is exactly as long as those pieces |
| Shortcuts.CaptureKey | app/src/main/java/org/mlm/browkorftv/ui/screens/ShortcutsScreen.kt:162-171 | a key is captured iff the event is a key-down other than BACK and DPAD_CENTER, with its code and its modifiers masked to ALT, CTRL and SHIFT |
| Shortcuts.CapturedKeyMatches | app/src/main/java/org/mlm/browkorftv/ui/screens/ShortcutsScreen.kt:164-171 | a captured key, once bound, is matched by the same press and fires on key-up |
| Shortcuts.ShortcutsScreen.constructor | app/src/main/java/org/mlm/browkorftv/ui/screens/ShortcutsScreen.kt:150 | no action is being edited and no key is awaited |
| Shortcuts.ShortcutsScreen.DisplayedBinding | app/src/main/java/org/mlm/browkorftv/ui/screens/ShortcutsScreen.kt:67 | the displayed binding is the map entry if present, else the manager's fallback, which is what the preferences give |
| Shortcuts.ShortcutsScreen.OpenEditor | app/src/main/java/org/mlm/browkorftv/ui/screens/ShortcutsScreen.kt:71 | choosing a row edits that action, not yet waiting for a key, with back-dismiss allowed (also line 150 of the same file) |
| Shortcuts.ShortcutsScreen.StartWaitingForKey | app/src/main/java/org/mlm/browkorftv/ui/screens/ShortcutsScreen.kt:154-209 | waiting for a key turns back-dismiss off |
| Shortcuts.ShortcutsScreen.CancelWaiting | app/src/main/java/org/mlm/browkorftv/ui/screens/ShortcutsScreen.kt:154-199 | cancelling the wait turns back-dismiss on again |
| Shortcuts.ShortcutsScreen.OnKeyEvent | app/src/main/java/org/mlm/browkorftv/ui/screens/ShortcutsScreen.kt:86-94 | from any manager state: a captured key is stored, through the update as written, as a short-press binding with the masked modifiers and editing closes; a store that agreed with the running map still agrees after a non-zero key; any other event is not consumed and changes nothing (also lines 162-175 of the same file) |
| Shortcuts.ShortcutsScreen.ClearKey | app/src/main/java/org/mlm/browkorftv/ui/screens/ShortcutsScreen.kt:95-98 | from any manager state, including one left by an earlier clear: the unassigned binding is installed through the update as written, which removes the stored keys, so a reload gives the action's default binding; editing closes |
| Shortcuts.ShortcutsScreen.Dismiss | app/src/main/java/org/mlm/browkorftv/ui/screens/ShortcutsScreen.kt:99 | dismissing closes editing |
| Updates.ChannelWithDefaults | app/src/main/java/org/mlm/browkorftv/updates/UpdateModels.kt:3-10 | a channel built without the optional fields has minimum API 21 and no per-ABI URLs, and keeps the given name, version and URL |
| Updates.ChangelogSince | app/src/main/java/org/mlm/browkorftv/updates/UpdateModels.kt:34-35 | keeps exactly the changelog entries newer than the current version code, in their original order |
| Updates.ChangelogSinceTwice | app/src/main/java/org/mlm/browkorftv/updates/UpdateModels.kt:34-35 | filtering since an older code and then since a newer one equals filtering since the newer one |
| Updates.ChangelogSinceMonotone | app/src/main/java/org/mlm/browkorftv/updates/UpdateModels.kt:34-35 | the entries since a newer code are an ordered sub-list of the entries since an older one |
| Updates.BestIndex | app/src/main/java/org/mlm/browkorftv/updates/UpdateRepository.kt:27-34 | the chosen channel is listed for checking and fits the device API; none is chosen iff no channel is eligible; its version code is the largest among eligible channels and it is the first of those on ties |
| Updates.ChooseChannel | app/src/main/java/org/mlm/browkorftv/updates/UpdateRepository.kt:27-34 | the chooser loop picks exactly the best eligible channel, or none when no channel is eligible |
| Updates.FirstEndingWith | app/src/main/java/org/mlm/browkorftv/updates/UpdateRepository.kt:59-66 | gives no URL iff no URL ends with the suffix (ignoring case); otherwise gives one of the URLs that does |
| Updates.SelectBestUrlForAbi | app/src/main/java/org/mlm/browkorftv/updates/UpdateRepository.kt:59-66 | without per-ABI URLs, or without one ending in the primary ABI's suffix, the channel's main URL; otherwise the first per-ABI URL ending with that suffix |
| Updates.DistinctFrom | app/src/main/java/org/mlm/browkorftv/updates/UpdateRepository.kt:24 | keeps exactly the names not yet seen, each once |
| Updates.DistinctFromPrefix | app/src/main/java/org/mlm/browkorftv/updates/UpdateRepository.kt:24 | the distinct names of a prefix are a prefix of the distinct names of the whole list, so first occurrences keep their order |
| Updates.AvailableChannels | app/src/main/java/org/mlm/browkorftv/updates/UpdateRepository.kt:24 | lists exactly the names of the manifest's channels, each once |
| Updates.CheckForUpdates | app/src/main/java/org/mlm/browkorftv/updates/UpdateRepository.kt:21-56 | a failed fetch gives an error with its message; no eligible channel gives no update; otherwise an update is available iff the best channel's code exceeds the current one, and the info carries that channel's code, name, best URL, the changelog and the available channels |
| Updates.UpdatesViewModel.constructor | app/src/main/java/org/mlm/browkorftv/updates/UpdatesUiState.kt:37-43 | the state starts idle: not checking, no result, not downloading, no progress, no events |
| Updates.UpdatesViewModel.BeginCheck | app/src/main/java/org/mlm/browkorftv/updates/UpdatesUiState.kt:64-67 | a check starts iff none is running; a started check clears the last result |
| Updates.UpdatesViewModel.FinishCheck | app/src/main/java/org/mlm/browkorftv/updates/UpdatesUiState.kt:69-83 | checking ends with the result stored and the check time recorded; the update dialog event is emitted exactly when asked for and an update is available |
| Updates.UpdatesViewModel.CheckAutoIfNeeded | app/src/main/java/org/mlm/browkorftv/updates/UpdatesUiState.kt:45-58 | an automatic check starts iff auto-check is enabled and built in, no check happened earlier the same day, and no check is running |
| Updates.UpdatesViewModel.BeginDownload | app/src/main/java/org/mlm/browkorftv/updates/UpdatesUiState.kt:87-91 | a download starts iff none is running; a started one clears the progress |
| Updates.UpdatesViewModel.OnDownloadProgress | app/src/main/java/org/mlm/browkorftv/updates/UpdatesUiState.kt:95-100 | each progress report is stored; the install request is emitted exactly when the download is done and has a file |
| Updates.UpdatesViewModel.FinishDownload | app/src/main/java/org/mlm/browkorftv/updates/UpdatesUiState.kt:101-105 | downloading always ends; a failure emits the download-failed message with its reason |
| Updates.ChangelogHtml | app/src/main/java/org/mlm/browkorftv/updates/UpdateDialogs.kt:24-31 | no entries give an empty message; each entry contributes at least its fixed markup |
| Updates.NoLineBreakAfterReplace | app/src/main/java/org/mlm/browkorftv/updates/UpdateDialogs.kt:28 | after replacing every line break with `<br>` no line break is left |
| Updates.ChangelogHtmlHasNoLineBreak | app/src/main/java/org/mlm/browkorftv/updates/UpdateDialogs.kt:24-31 | when no version name holds a line break, the whole message holds none |
| Updates.BuildChangelogMessage | app/src/main/java/org/mlm/browkorftv/updates/UpdateDialogs.kt:24-31 | the message-building loop yields the message of all the entries in order |
| Updates.UpdateAvailableDialog | app/src/main/java/org/mlm/browkorftv/updates/UpdateDialogs.kt:22-31 | no dialog iff there is no update; otherwise its message is that of the changelog entries since the current version |
| Updates.ProgressBar.constructor | app/src/main/java/org/mlm/browkorftv/updates/UpdateDialogs.kt:51-55 | the bar starts indeterminate |
| Updates.ProgressBar.Update | app/src/main/java/org/mlm/browkorftv/updates/UpdateDialogs.kt:67-76 | no progress changes nothing; progress without a total or percentage makes the bar indeterminate; otherwise the bar is determinate out of 100 at that percentage |
| Updates.LegacyLastNotificationTime | app/src/main/java/com/phlox/tvwebbrowser/activity/main/AutoUpdateViewModel.kt:21-29 | a positive stored time is used as is; otherwise the current time is used |
| Updates.LegacyNotifiedToday | app/src/main/java/com/phlox/tvwebbrowser/activity/main/AutoUpdateViewModel.kt:50-52 | as written, "notified today" always holds without a stored time, and otherwise holds iff the stored time falls on today |
| Updates.FreshInstallNeverNotified | app/src/main/java/com/phlox/tvwebbrowser/activity/main/AutoUpdateViewModel.kt:21-54 | with no stored time the legacy code deems the user notified today, so the startup check and an unforced dialog never happen (also the legacy MainActivity.kt:500-509) |
| Updates.NotifiedTodayCorrected | app/src/main/java/com/phlox/tvwebbrowser/activity/main/AutoUpdateViewModel.kt:50-54 | the corrected test agrees with the legacy one for a stored time and with the new view model's once-a-day test, and with no stored time lets the startup check and the dialog through (also the legacy MainActivity.kt:500-509) |
| Updates.AutoUpdateViewModel.constructor | app/src/main/java/com/phlox/tvwebbrowser/activity/main/AutoUpdateViewModel.kt:14-18 | starts with the stored time and settings given and no check result |
| Updates.AutoUpdateViewModel.CheckUpdate | app/src/main/java/com/phlox/tvwebbrowser/activity/main/AutoUpdateViewModel.kt:34-48 | the callback always runs once; a fetch happens only without a result or when forced, and a successful one replaces the result |
| Updates.AutoUpdateViewModel.ShowUpdateDialogIfNeeded | app/src/main/java/com/phlox/tvwebbrowser/activity/main/AutoUpdateViewModel.kt:50-63 | with the same-day test as written, the dialog shows iff (forced or not notified today) and an update is known; showing records the time |
| Updates.AutoUpdateViewModel.StartupAutoCheck | app/src/main/java/com/phlox/tvwebbrowser/activity/main/MainActivity.kt:500-509 | with the same-day test as written, the startup check runs iff auto-check is needed, there is no result yet and the user was not notified today, which needs a stored time; a check stores what was fetched and runs the callback once; the dialog then shows, counted and timed, exactly when a newer version was fetched; without a check nothing changes |
| Favicons.NormalizeUrlOrHost | app/src/main/java/org/mlm/browkorftv/singleton/FaviconsPool.kt:98-106 | nothing iff the trimmed input is blank or has a scheme other than http/https; otherwise an http(s) address ending with the trimmed input |
| Favicons.NormalizeIdempotent | app/src/main/java/org/mlm/browkorftv/singleton/FaviconsPool.kt:98-106 | normalising a normalised address gives it back unchanged |
| Favicons.NormalizeFixed | app/src/main/java/org/mlm/browkorftv/singleton/FaviconsPool.kt:101 | a trimmed address already starting with http:// or https:// (any case) is kept as it is |
| Favicons.HttpsPrefixedIsNormal | app/src/main/java/org/mlm/browkorftv/singleton/FaviconsPool.kt:105 | a bare host behind https:// is already in normal form |
| Favicons.LookupTarget | app/src/main/java/org/mlm/browkorftv/singleton/FaviconsPool.kt:44-46 | a lookup goes ahead exactly with a normalised address whose host is not blank |
| Favicons.Wrap32 | app/src/main/java/org/mlm/browkorftv/singleton/FaviconsPool.kt:175 | JVM Int arithmetic: a value in range is kept as it is |
| Favicons.WrapPeriodic | app/src/main/java/org/mlm/browkorftv/singleton/FaviconsPool.kt:175 | wrap-around ignores multiples of 2^32 |
| Favicons.ModUnique | app/src/main/java/org/mlm/browkorftv/singleton/FaviconsPool.kt:175 | the remainder modulo 2^32 is the unique one in range |
| Favicons.WrapOnce | app/src/main/java/org/mlm/browkorftv/singleton/FaviconsPool.kt:175 | wrapping a sum of two Ints moves it by at most one period |
| Favicons.Abs32 | app/src/main/java/org/mlm/browkorftv/singleton/FaviconsPool.kt:175 | `abs` on Int: the magnitude, except that the minimum Int is its own absolute value |
| Favicons.Distances | app/src/main/java/org/mlm/browkorftv/singleton/FaviconsPool.kt:175 | each icon's distance is the wrapped sum of its width and height differences |
| Favicons.NearestIndex | app/src/main/java/org/mlm/browkorftv/singleton/FaviconsPool.kt:171-181 | no icon is chosen iff every distance is Int.MAX_VALUE; otherwise the chosen distance is the least and it is the first with that distance |
| Favicons.NearestStep | app/src/main/java/org/mlm/browkorftv/singleton/FaviconsPool.kt:174-180 | one loop step: the next icon replaces the best so far exactly when its distance is strictly smaller |
| Favicons.ChooseNearestSizeIcon | app/src/main/java/org/mlm/browkorftv/singleton/FaviconsPool.kt:166-182 | the loop returns exactly the icon that the nearest-index specification picks, or nothing |
| Favicons.NearestMinimisesManhattan | app/src/main/java/org/mlm/browkorftv/singleton/FaviconsPool.kt:166-182 | for sizes small enough that no sum wraps, the chosen icon minimises the Manhattan distance to the wanted size, the first on ties |
| Favicons.ChosenIcon | app/src/main/java/org/mlm/browkorftv/singleton/FaviconsPool.kt:66-70 | an icon is chosen iff the page declares any; it is the icon the nearest-size pass keeps, else the first, and for realistic sizes it has the least Manhattan distance to the preferred size |
| Favicons.SampleSize | app/src/main/java/org/mlm/browkorftv/singleton/FaviconsPool.kt:152-156 | the sample size is at least 1 and at least each bounded side divided by 512, and is one of those three values |
| Favicons.SampleSizeBounds | app/src/main/java/org/mlm/browkorftv/singleton/FaviconsPool.kt:152-156 | images under 1024 pixels a side are decoded at full size; a larger sample size still leaves a side of at least 512 pixels |
| Favicons.PolynomialSnoc | app/src/main/java/org/mlm/browkorftv/singleton/FaviconsPool.kt:127 | appending a character multiplies the hash polynomial by 31 and adds the character |
| Favicons.HashCodeIsPolynomial | app/src/main/java/org/mlm/browkorftv/singleton/FaviconsPool.kt:127 | the host's hash code is the base-31 character polynomial reduced to a JVM Int |
| Favicons.FaviconFileName | app/src/main/java/org/mlm/browkorftv/singleton/FaviconsPool.kt:127 | the file name is the host's hash code in decimal followed by ".png", and reading the digits back gives the hash code |
| Favicons.FaviconFileNamesCollide | app/src/main/java/org/mlm/browkorftv/singleton/FaviconsPool.kt:127 | two hosts share a file name exactly when their hash codes are equal |
| Favicons.DiskIcon | app/src/main/java/org/mlm/browkorftv/singleton/FaviconsPool.kt:111-121 | a stored icon exists iff the host's record names a file and that file is in the favicon directory |
| Favicons.FaviconsPool.constructor | app/src/main/java/org/mlm/browkorftv/singleton/FaviconsPool.kt:27-39 | the pool starts with the given host records and files, an empty cache and no fetches |
| Favicons.FaviconsPool.FetchFromNetwork | app/src/main/java/org/mlm/browkorftv/singleton/FaviconsPool.kt:62-80 | the page's icons are fetched once; the chosen icon is downloaded; a success is cached and stored under the host's hash-code file name; a failure changes nothing stored (also lines 123-139 of the same file) |
| Favicons.FaviconsPool.GetForHost | app/src/main/java/org/mlm/browkorftv/singleton/FaviconsPool.kt:48-80 | a cached icon is returned with nothing changed; else a stored icon is returned and cached; else the network path runs, and a downloaded icon is added to the cache, the host's record and the favicon directory with every other entry unchanged |
| Favicons.FaviconsPool.Get | app/src/main/java/org/mlm/browkorftv/singleton/FaviconsPool.kt:43-92 | a bad address or blank host gives nothing and changes nothing; otherwise the cache, disk and network are tried in that order for the host, a downloaded icon changing only that host's cache entry, host record and file |
| Favicons.FaviconsPool.Clear | app/src/main/java/org/mlm/browkorftv/singleton/FaviconsPool.kt:94-96 | the memory cache is emptied and nothing stored changes |
| Bookmarks.SchemeRun | app/src/main/java/com/phlox/tvwebbrowser/compose/aux/ui/BookmarkEditorScreen.kt:56 | the longest prefix of scheme characters: all of it are scheme characters and the next one is not |
| Bookmarks.HasSchemeIffSplit | app/src/main/java/com/phlox/tvwebbrowser/compose/aux/ui/BookmarkEditorScreen.kt:56 | reading the scheme as the longest run of scheme characters accepts exactly the strings the regular expression matches |
| Bookmarks.NormalizeUrl | app/src/main/java/com/phlox/tvwebbrowser/compose/aux/ui/BookmarkEditorScreen.kt:53-57 | empty iff the trimmed input is empty; a trimmed input with a scheme and "://" is kept as it is, and any other non-empty one gets "https://" in front |
| Bookmarks.HttpsPrefixHasScheme | app/src/main/java/com/phlox/tvwebbrowser/compose/aux/ui/BookmarkEditorScreen.kt:56 | a single-line host behind https:// matches the scheme pattern |
| Bookmarks.NormalizeUrlFixed | app/src/main/java/com/phlox/tvwebbrowser/compose/aux/ui/BookmarkEditorScreen.kt:53-57 | a trimmed URL with a scheme normalises to itself |
| Bookmarks.HttpsPrefixedIsNormal | app/src/main/java/com/phlox/tvwebbrowser/compose/aux/ui/BookmarkEditorScreen.kt:53-57 | a trimmed single-line host behind https:// is in normal form |
| Bookmarks.NormalizeUrlIdempotent | app/src/main/java/com/phlox/tvwebbrowser/compose/aux/ui/BookmarkEditorScreen.kt:53-57 | a normalised single-line URL has a scheme and normalising it again changes nothing |
| Bookmarks.SaveBase | app/src/main/java/com/phlox/tvwebbrowser/compose/aux/ui/BookmarkEditorScreen.kt:114 | Save starts from the stored record when the editor has an id that still resolves; from a new item when it has none or the id no longer resolves |
| Bookmarks.LoadedItem | app/src/main/java/com/phlox/tvwebbrowser/compose/aux/ui/BookmarkEditorScreen.kt:34-42 | by id when the editor has one; else, for a slot, the first home bookmark with the slot's order (no earlier one has it), nothing iff no home bookmark has it; else nothing |
| Bookmarks.SaveWrites | app/src/main/java/com/phlox/tvwebbrowser/compose/aux/ui/BookmarkEditorScreen.kt:107-127 | at most one write, and only for a non-blank URL; the record written is exactly `SavedItem` of the base record, title, normalised URL and slot (so its title, order and flags too), it keeps the base record's id, and it is inserted iff that id is 0 |
| Bookmarks.SavedItem | app/src/main/java/com/phlox/tvwebbrowser/compose/aux/ui/BookmarkEditorScreen.kt:114-125 | the saved record keeps the base's id, kind and expiry, has the normalised URL, the top-level folder, the trimmed title or else the URL as title, and the home-page flag and slot order exactly for a slot |
| Bookmarks.NormalizeUrlBlankIff | app/src/main/java/com/phlox/tvwebbrowser/compose/aux/ui/BookmarkEditorScreen.kt:111-112 | the normalised URL is blank exactly when the input is |
| Bookmarks.SaveWritesNothingIffBlank | app/src/main/java/com/phlox/tvwebbrowser/compose/aux/ui/BookmarkEditorScreen.kt:111-112 | Save writes nothing iff the URL is blank |
| Bookmarks.SaveInsertsIffNew | app/src/main/java/com/phlox/tvwebbrowser/compose/aux/ui/BookmarkEditorScreen.kt:127 | the saved record is inserted iff there is no stored record to start from (or it has id 0), and updated otherwise |
| Bookmarks.SavedSlotIsFound | app/src/main/java/com/phlox/tvwebbrowser/compose/aux/ui/BookmarkEditorScreen.kt:39 | a record saved for a home slot is the one that slot's editor loads next time (also lines 119-121 of the same file) |
| Bookmarks.BookmarkEditor.constructor | app/src/main/java/com/phlox/tvwebbrowser/compose/aux/ui/BookmarkEditorScreen.kt:22-25 | the editor starts loading, with no existing id, an empty title and URL and no writes |
| Bookmarks.BookmarkEditor.Load | app/src/main/java/com/phlox/tvwebbrowser/compose/aux/ui/BookmarkEditorScreen.kt:30-49 | loads by id, else by home slot; keeps the record's id only when non-zero and shows its title and URL or empty strings; loading ends |
| Bookmarks.BookmarkEditor.SetTitle | app/src/main/java/com/phlox/tvwebbrowser/compose/aux/ui/BookmarkEditorScreen.kt:88-89 | the title becomes the given text (the Clear button gives the empty one) and nothing else changes (also lines 165-168 of the same file) |
| Bookmarks.BookmarkEditor.SetUrl | app/src/main/java/com/phlox/tvwebbrowser/compose/aux/ui/BookmarkEditorScreen.kt:99-100 | the URL becomes the given text and nothing else changes (also lines 180-183 of the same file) |
| Bookmarks.BookmarkEditor.Save | app/src/main/java/com/phlox/tvwebbrowser/compose/aux/ui/BookmarkEditorScreen.kt:107-131 | issues exactly the writes Save specifies for the current title and URL, and the editor closes |
| Bookmarks.BookmarkEditor.Delete | app/src/main/java/com/phlox/tvwebbrowser/compose/aux/ui/BookmarkEditorScreen.kt:133-141 | deletes the record with the existing id, and the editor closes |
| Bookmarks.BookmarkEditor.ClearSlot | app/src/main/java/com/phlox/tvwebbrowser/compose/aux/ui/BookmarkEditorScreen.kt:144-155 | deletes the first home bookmark in the slot when there is one, and the editor closes |
| Bookmarks.SlotItem | app/src/main/java/com/phlox/tvwebbrowser/activity/main/HomePageSlotEditorViewModel.kt:46-50 | the slot's record, or a new home-page item at the slot's order in the top-level folder |
| Bookmarks.HomePageSlotEditor.constructor | app/src/main/java/com/phlox/tvwebbrowser/activity/main/HomePageSlotEditorViewModel.kt:12-27 | starts with the default state and no record |
| Bookmarks.HomePageSlotEditor.LoadSlot | app/src/main/java/com/phlox/tvwebbrowser/activity/main/HomePageSlotEditorViewModel.kt:33-43 | the record is the first home bookmark with the slot's order; when found its title and URL are shown and deleting is allowed, otherwise the state is unchanged |
| Bookmarks.HomePageSlotEditor.Save | app/src/main/java/com/phlox/tvwebbrowser/activity/main/HomePageSlotEditorViewModel.kt:45-60 | the slot's record gets the given title and URL and is written (inserted or updated); the state becomes saved |
| Bookmarks.HomePageSlotEditor.Delete | app/src/main/java/com/phlox/tvwebbrowser/activity/main/HomePageSlotEditorViewModel.kt:62-65 | the record is deleted when there is one; the state becomes saved either way |
| Bookmarks.SlotSaveTarget | app/src/main/java/com/phlox/tvwebbrowser/activity/main/HomePageSlotEditorViewModel.kt:45-59 | an empty slot inserts a home-page item at the slot's order; a stored one is updated under its id; both carry the given title and URL |
| Records.NewFavoriteItem | app/src/main/java/com/phlox/tvwebbrowser/compose/aux/ui/BookmarkEditorScreen.kt:114 | a new item is not stored yet (id 0), has no title or URL, is not a folder, not on the home page and has no expiry (also HomePageSlotEditorViewModel.kt:46) |
| Records.StoreCommand | app/src/main/java/com/phlox/tvwebbrowser/compose/aux/ui/BookmarkEditorScreen.kt:127 | an item is inserted iff its id is 0, and updated otherwise (also HomePageSlotEditorViewModel.kt:54-58) |
| Records.FirstWithOrder | app/src/main/java/com/phlox/tvwebbrowser/compose/aux/ui/BookmarkEditorScreen.kt:39 | the first item with the given order, or nothing iff no item has it (also HomePageSlotEditorViewModel.kt:36) |
| Records.LinksOf | app/src/main/java/com/phlox/tvwebbrowser/activity/main/MainViewModel.kt:104 | one link per bookmark, in the same order |
| Records.RecommendationToMark | app/src/main/java/com/phlox/tvwebbrowser/activity/main/MainViewModel.kt:263-265 | the favorite id of the first link with the order, when that link has one and an expiry; nothing otherwise |
| Records.HistoryItem.constructor | app/src/main/java/com/phlox/tvwebbrowser/activity/main/MainViewModel.kt:125-129 | a new visit carries the given URL, title, time and favicon, and is unsaved with id 0 |
| Records.HistoryItem.MarkSaved | app/src/main/java/com/phlox/tvwebbrowser/activity/main/MainViewModel.kt:133-134 | the visit takes the row id and is saved; its contents do not change |
| Records.WithoutJob | app/src/main/java/com/phlox/tvwebbrowser/activity/main/MainViewModel.kt:121 | cancelling removes exactly that job from the pending ones |
| MainVm.PruneCommands | app/src/main/java/com/phlox/tvwebbrowser/activity/main/MainViewModel.kt:72-77 | history is pruned iff it holds more than 5000 entries, and the prune deletes entries older than the cutoff |
| MainVm.HomePageLinksFor | app/src/main/java/com/phlox/tvwebbrowser/activity/main/MainViewModel.kt:89-109 | links are loaded iff the home page mode is the links page; bookmarks mode gives one link per home bookmark in order, the other modes the most visited or the latest history |
| MainVm.IndexOfFavorite | app/src/main/java/com/phlox/tvwebbrowser/activity/main/MainViewModel.kt:254 | the first link carrying the favorite's id, or -1 iff none does |
| MainVm.EditedLinks | app/src/main/java/com/phlox/tvwebbrowser/activity/main/MainViewModel.kt:244-260 | a new item's link is appended under the id storage gave it; for a stored item, the first link with its id is replaced by the item's link and the list is otherwise the same, and a list without such a link is unchanged |
| MainVm.EditedLinksIdempotent | app/src/main/java/com/phlox/tvwebbrowser/activity/main/MainViewModel.kt:251-258 | applying the same edit twice gives the same list as applying it once |
| MainVm.MainViewModel.constructor | app/src/main/java/com/phlox/tvwebbrowser/activity/main/MainViewModel.kt:45-50 | starts not loaded, with no last visit, no pending save, no links and no writes |
| MainVm.MainViewModel.LoadHomePageLinks | app/src/main/java/com/phlox/tvwebbrowser/activity/main/MainViewModel.kt:107 | loaded links replace the list; no links leave it as it was |
| MainVm.MainViewModel.LoadState | app/src/main/java/com/phlox/tvwebbrowser/activity/main/MainViewModel.kt:54-87 | runs at most once: prunes when needed, takes the newest visit as the last one when there is any, loads the links and marks the model loaded |
| MainVm.MainViewModel.LogVisitedHistory | app/src/main/java/com/phlox/tvwebbrowser/activity/main/MainViewModel.kt:111-136 | a repeated URL, the home page or a non-http URL changes nothing; otherwise a new unsaved visit with the title (or "") and time becomes the last visit with its own pending save, and the previous save is cancelled only while it was unsaved and under 5 seconds old |
| MainVm.MainViewModel.SaveJobFires | app/src/main/java/com/phlox/tvwebbrowser/activity/main/MainViewModel.kt:131-135 | the delayed save inserts the visit, gives it the row id and marks it saved, and its job is no longer pending |
| MainVm.MainViewModel.OnTabTitleUpdated | app/src/main/java/com/phlox/tvwebbrowser/activity/main/MainViewModel.kt:138-149 | outside incognito mode, a tab showing the last visit's URL renames that visit, and a saved visit also gets its stored title updated; otherwise nothing changes |
| MainVm.MainViewModel.RemoveHomePageLink | app/src/main/java/com/phlox/tvwebbrowser/activity/main/MainViewModel.kt:235-242 | the first equal link leaves the list, and its bookmark is deleted when it has one |
| MainVm.MainViewModel.OnHomePageLinkEdited | app/src/main/java/com/phlox/tvwebbrowser/activity/main/MainViewModel.kt:244-260 | the item is inserted or updated and the links change as the edit specifies; a new item takes the id storage returns |
| MainVm.MainViewModel.MarkBookmarkRecommendationAsUseful | app/src/main/java/com/phlox/tvwebbrowser/activity/main/MainViewModel.kt:262-269 | marks as useful exactly the favorite of the first link with the order, when that link has a favorite id and an expiry; nothing else changes |
| BrowserData.LogsOnlyWhatLegacyLogs | app/src/main/java/com/phlox/tvwebbrowser/compose/vm/BrowserDataViewModel.kt:77-78 | outside incognito mode, every visit this view model logs is one the legacy view model logs too (also MainViewModel.kt:112-114) |
| BrowserData.UpperCaseSchemeLoggedOnlyByLegacy | app/src/main/java/com/phlox/tvwebbrowser/compose/vm/BrowserDataViewModel.kt:77 | an "HTTP://" URL is ignored here but logged by the legacy view model, whose scheme test ignores case (also MainViewModel.kt:112) |
| BrowserData.InsertAll | app/src/main/java/com/phlox/tvwebbrowser/compose/vm/BrowserDataViewModel.kt:65 | one insert per recommendation, in order |
| BrowserData.ReloadedLinks | app/src/main/java/com/phlox/tvwebbrowser/compose/vm/BrowserDataViewModel.kt:58-74 | no links off the browser's home page; the bookmarks' links when there are bookmarks or suggestions were loaded before; after a first-run fetch, the re-read bookmarks' links |
| BrowserData.FetchAtMostOnce | app/src/main/java/com/phlox/tvwebbrowser/compose/vm/BrowserDataViewModel.kt:63-66 | once suggestions are loaded they are never fetched again |
| BrowserData.BrowserDataViewModel.constructor | app/src/main/java/com/phlox/tvwebbrowser/compose/vm/BrowserDataViewModel.kt:32-36 | starts not loaded, with no last visit, no pending save, no links and no writes |
| BrowserData.BrowserDataViewModel.InsertRecommendations | app/src/main/java/com/phlox/tvwebbrowser/compose/vm/BrowserDataViewModel.kt:65 | every fetched recommendation is inserted, in order, and nothing else changes |
| BrowserData.BrowserDataViewModel.ReloadHomePageLinks | app/src/main/java/com/phlox/tvwebbrowser/compose/vm/BrowserDataViewModel.kt:58-74 | the links become the reloaded ones; recommendations are fetched (and inserted) exactly on the first run with no home bookmarks, which marks suggestions loaded |
| BrowserData.BrowserDataViewModel.LoadOnce | app/src/main/java/com/phlox/tvwebbrowser/compose/vm/BrowserDataViewModel.kt:38-49 | runs at most once: takes the newest visit as the last one when there is any, reloads the links and marks the model loaded; on that first load, when the reload fetches recommendations, they are marked loaded, the fetch is counted once and each fetched one is inserted, and otherwise those three are left alone |
| BrowserData.BrowserDataViewModel.LogVisitedHistory | app/src/main/java/com/phlox/tvwebbrowser/compose/vm/BrowserDataViewModel.kt:76-92 | an incognito, non-"http", home-page or repeated visit changes nothing; otherwise a new unsaved visit becomes the last one and its save replaces any pending one |
| BrowserData.BrowserDataViewModel.SaveJobFires | app/src/main/java/com/phlox/tvwebbrowser/compose/vm/BrowserDataViewModel.kt:85-91 | the delayed save inserts the visit, gives it the row id and marks it saved; no save is pending afterwards |
| BrowserData.BrowserDataViewModel.OnTabTitleUpdated | app/src/main/java/com/phlox/tvwebbrowser/compose/vm/BrowserDataViewModel.kt:94-100 | only a saved last visit showing in the tab is renamed, with its stored title updated; otherwise nothing changes |
| BrowserData.BrowserDataViewModel.MarkBookmarkRecommendationAsUseful | app/src/main/java/com/phlox/tvwebbrowser/compose/vm/BrowserDataViewModel.kt:102-107 | marks as useful exactly the favorite of the first link with the order, when that link has a favorite id and an expiry; nothing else changes |
| FavoritesDialogs.AddItemPrefill | app/src/main/java/com/phlox/tvwebbrowser/activity/main/dialogs/favorites/FavoritesDialog.kt:83-92 | the Add button opens the editor on a new, unstored item with the current page's title and URL, which storing inserts |
| FavoritesDialogs.IndexOfId | app/src/main/java/com/phlox/tvwebbrowser/activity/main/dialogs/favorites/FavoritesDialog.kt:94-108 | the first item with the row id, or -1 iff none has it |
| FavoritesDialogs.EditedItems | app/src/main/java/com/phlox/tvwebbrowser/activity/main/dialogs/favorites/FavoritesDialog.kt:94-108 | a new item, with its new row id, goes first; an edited stored item replaces the first item with its id, at that position, other items and the order unchanged; an unknown id changes nothing |
| FavoritesDialogs.EditUndoesEdit | app/src/main/java/com/phlox/tvwebbrowser/activity/main/dialogs/favorites/FavoritesDialog.kt:94-108 | editing a stored item and then saving its old contents gives the list back |
| FavoritesDialogs.DeleteUndoesAdd | app/src/main/java/com/phlox/tvwebbrowser/activity/main/dialogs/favorites/FavoritesDialog.kt:99-123 | deleting an item just added gives the list back as it was |
| FavoritesDialogs.FavoritesDialog.constructor | app/src/main/java/com/phlox/tvwebbrowser/activity/main/dialogs/favorites/FavoritesDialog.kt:44-74 | the dialog opens loading, with no items, not in edit mode, neither list nor placeholder shown, nothing chosen and no writes |
| FavoritesDialogs.FavoritesDialog.OnItemsChanged | app/src/main/java/com/phlox/tvwebbrowser/activity/main/dialogs/favorites/FavoritesDialog.kt:110-115 | loading ends; the list shows iff there are items and the placeholder iff there are none |
| FavoritesDialogs.FavoritesDialog.OnLoaded | app/src/main/java/com/phlox/tvwebbrowser/activity/main/dialogs/favorites/FavoritesDialog.kt:76-80 | every stored item is appended and the list or placeholder shows |
| FavoritesDialogs.FavoritesDialog.ToggleEditMode | app/src/main/java/com/phlox/tvwebbrowser/activity/main/dialogs/favorites/FavoritesDialog.kt:57-61 | edit mode flips and nothing else changes |
| FavoritesDialogs.FavoritesDialog.OnItemClick | app/src/main/java/com/phlox/tvwebbrowser/activity/main/dialogs/favorites/FavoritesDialog.kt:63-69 | a folder does nothing; any other item is handed to the caller and the dialog closes |
| FavoritesDialogs.FavoritesDialog.OnItemEdited | app/src/main/java/com/phlox/tvwebbrowser/activity/main/dialogs/favorites/FavoritesDialog.kt:94-108 | the item is inserted (new) or updated (stored), the list changes as the edit specifies and loading ends |
| FavoritesDialogs.FavoritesDialog.OnDeleteClick | app/src/main/java/com/phlox/tvwebbrowser/activity/main/dialogs/favorites/FavoritesDialog.kt:117-123 | the item is deleted from storage, its first occurrence leaves the list, and loading ends |
| Downloads.Download.constructor | app/src/main/java/com/phlox/tvwebbrowser/activity/downloads/DownloadListItemView.kt:75-76 | a download record carries the given file name, size and byte count |
| Downloads.TruncDiv | app/src/main/java/com/phlox/tvwebbrowser/activity/downloads/DownloadListItemView.kt:103-105 | Long division truncates toward zero for both signs |
| Downloads.Percent | app/src/main/java/com/phlox/tvwebbrowser/activity/downloads/DownloadListItemView.kt:104 | the percentage is `bytesReceived * 100 / size` truncated toward zero whenever that fits an `Int` |
| Downloads.PercentRange | app/src/main/java/com/phlox/tvwebbrowser/activity/downloads/DownloadListItemView.kt:103-105 | while some but not all bytes have arrived, the percentage is in 0..99 |
| Downloads.PercentMonotone | app/src/main/java/com/phlox/tvwebbrowser/activity/downloads/DownloadListItemView.kt:103-105 | more bytes received never show a lower percentage |
| Downloads.Classify | app/src/main/java/com/phlox/tvwebbrowser/activity/downloads/DownloadListItemView.kt:77-106 | nothing is shown for a negative size that is neither mark; otherwise the label is "cancelled", "error" (in red, the only red case), the bytes received for size 0, the size when complete, or received/size in progress; the bar shows iff a positive size is not yet fully received; the second bar iff the size is 0 |
| Downloads.DownloadListItemView.constructor | app/src/main/java/com/phlox/tvwebbrowser/activity/downloads/DownloadListItemView.kt:28-30 | the row starts bound to no download, with no label, not red, both bars visible and progress 0 |
| Downloads.DownloadListItemView.UpdateUI | app/src/main/java/com/phlox/tvwebbrowser/activity/downloads/DownloadListItemView.kt:71-108 | the title, label, colour and bars are what the classification shows; a download in progress gets its percentage, or size 0 when it received more than its size; the bound download takes the new size and byte count |
| Downloads.DownloadListItemView.SetDownload | app/src/main/java/com/phlox/tvwebbrowser/activity/downloads/DownloadListItemView.kt:30-47 | the row holds the new download; for a download row it shows its title and updates as updateUI does, and otherwise nothing shown changes |
| Settings.SearchEngineCall | app/src/main/java/org/mlm/browkorftv/activity/main/SettingsViewModel.kt:20-32 | a URL among the predefined engines (all entries but the last) selects its first occurrence; any other URL selects the last entry as a custom engine with that URL |
| Settings.SelectedUrl | app/src/main/java/org/mlm/browkorftv/activity/main/SettingsViewModel.kt:20-32 | a custom URL selects itself; otherwise an index selects an engine iff it is in range, and then one of the listed URLs; the home-page call selects none |
| Settings.SearchEngineCallSelectsUrl | app/src/main/java/org/mlm/browkorftv/activity/main/SettingsViewModel.kt:20-32 | whichever branch is taken, the call selects exactly the chosen URL |
| Settings.LastEntryIsCustom | app/src/main/java/org/mlm/browkorftv/activity/main/SettingsViewModel.kt:22-29 | choosing the last entry's own URL stores it as a custom URL |
| Settings.HomePagePropertiesCall | app/src/main/java/org/mlm/browkorftv/activity/main/SettingsViewModel.kt:34-46 | the three home-page properties reach the store unchanged and in their own roles |
| Platform.IdleVoice | app/src/main/java/com/phlox/tvwebbrowser/compose/runtime/ActivityBrowserPlatform.kt:30 | the idle voice state is inactive with no partial text (also line 129 of the same file) |
| Platform.GrantResults | app/src/main/java/com/phlox/tvwebbrowser/compose/runtime/ActivityBrowserPlatform.kt:60-64 | one result per requested permission, in request order: granted iff the answer for that permission is yes, denied otherwise (also when missing) |
| Platform.SamePermissionSameResult | app/src/main/java/com/phlox/tvwebbrowser/compose/runtime/ActivityBrowserPlatform.kt:60-64 | a permission requested twice gets the same result at both positions |
| Platform.GrantResultsAppend | app/src/main/java/com/phlox/tvwebbrowser/compose/runtime/ActivityBrowserPlatform.kt:60-64 | the results for two lists of permissions joined are the results of each joined |
| Platform.FillGrantResults | app/src/main/java/com/phlox/tvwebbrowser/compose/runtime/ActivityBrowserPlatform.kt:60-64 | the array built slot by slot holds exactly the grant results |
| Platform.ActivityBrowserPlatform.constructor | app/src/main/java/com/phlox/tvwebbrowser/compose/runtime/ActivityBrowserPlatform.kt:21-53 | starts with no host, no pending request, no recognizer, not listening, the idle voice state and nothing delivered or launched |
| Platform.ActivityBrowserPlatform.AttachHost | app/src/main/java/com/phlox/tvwebbrowser/compose/runtime/ActivityBrowserPlatform.kt:22-24 | a host is attached and nothing else changes |
| Platform.ActivityBrowserPlatform.DetachHost | app/src/main/java/com/phlox/tvwebbrowser/compose/runtime/ActivityBrowserPlatform.kt:26-28 | the host is detached and nothing else changes |
| Platform.ActivityBrowserPlatform.RequestPermissions | app/src/main/java/com/phlox/tvwebbrowser/compose/runtime/ActivityBrowserPlatform.kt:69-72 | the request, with its code and permissions, becomes the pending one (replacing any earlier) and the permission prompt is launched |
| Platform.ActivityBrowserPlatform.OnPermissionsResult | app/src/main/java/com/phlox/tvwebbrowser/compose/runtime/ActivityBrowserPlatform.kt:55-67 | an answer with no pending request is ignored; otherwise the pending request is cleared and, when a host is attached, it gets the request's code, permissions and grant results |
| Platform.ActivityBrowserPlatform.StartVoiceSearch | app/src/main/java/com/phlox/tvwebbrowser/compose/runtime/ActivityBrowserPlatform.kt:82-122 | with on-device recognition the recognizer is created once, the voice state becomes active and listening starts; otherwise the system voice prompt is launched and nothing else changes |
| Platform.ActivityBrowserPlatform.StopVoiceSearch | app/src/main/java/com/phlox/tvwebbrowser/compose/runtime/ActivityBrowserPlatform.kt:124-130 | listening stops (the recognizer is told so only if it was listening) and the voice state returns to idle |
| Platform.ActivityBrowserPlatform.OnRmsChanged | app/src/main/java/com/phlox/tvwebbrowser/compose/runtime/ActivityBrowserPlatform.kt:90-92 | only the voice level changes |
| Platform.ActivityBrowserPlatform.OnPartialResults | app/src/main/java/com/phlox/tvwebbrowser/compose/runtime/ActivityBrowserPlatform.kt:103-106 | only the partial text changes, to the first hypothesis or "" |
| Platform.ActivityBrowserPlatform.OnError | app/src/main/java/com/phlox/tvwebbrowser/compose/runtime/ActivityBrowserPlatform.kt:95-98 | an error stops voice search as stopping does |
| Platform.ActivityBrowserPlatform.OnResults | app/src/main/java/com/phlox/tvwebbrowser/compose/runtime/ActivityBrowserPlatform.kt:99-102 | results stop voice search and the first hypothesis goes to the host, when one is attached |
| Platform.ActivityBrowserPlatform.OnVoiceIntentResult | app/src/main/java/com/phlox/tvwebbrowser/compose/runtime/ActivityBrowserPlatform.kt:76-80 | the system prompt's first match goes to the host, when one is attached |
| Platform.ActivityBrowserPlatform.Dispose | app/src/main/java/com/phlox/tvwebbrowser/compose/runtime/ActivityBrowserPlatform.kt:132-135 | the recognizer is destroyed when there is one, and none is left |
| Platform.LaterRequestWins | app/src/main/java/com/phlox/tvwebbrowser/compose/runtime/ActivityBrowserPlatform.kt:53-72 | a second request before the answer replaces the first: the answer carries the second request's code and permissions |
| Platform.AnswerDeliveredOnce | app/src/main/java/com/phlox/tvwebbrowser/compose/runtime/ActivityBrowserPlatform.kt:57-58 | a request's result is delivered once; a second answer is ignored |

## Left out

- Tabs.BrowserTabs.LegacyOpenInNewTab: counts a request to hide the overlay every time, while the legacy activity asks only when the action bar is visible (app/src/main/java/com/phlox/tvwebbrowser/activity/main/MainActivity.kt:530). Whether the bar is visible is not part of the model.
- Downloads.DownloadListItemView.constructor: the visibility of the progress bar before the first update comes from the row's layout file, which is not part of this model.
- Rendering, animations, focus requests, toasts, dialogs, clipboard, share, opening an external app and the file chooser: decisions are modelled, their display is not. What an action does after it has been chosen (a shortcut's `process`, a link or text action) is recorded but not carried out.
- Case-insensitive comparisons (`startsWith(..., true)`, `endsWith(..., true)`, `lowercase()`) fold ASCII letters only. Kotlin also folds non-ASCII letters.
- `String.hashCode` works on UTF-16 code units, and Dafny characters are Unicode scalar values. `Favicons.HashCodeIsPolynomial` therefore agrees with the JVM only for host names inside the Basic Multilingual Plane, which covers every host name in ASCII or punycode.
- Tabs are values with unique ids. The sharing of one `WebTabState` object between the list, the current-tab field and callbacks is not modelled: a callback updates the tab with its id.
- The tab view model is not part of this model. Its add, switch and remove operations are modelled from how both activities use them.
- Tabs.BrowserTabs.CloseTab: requires the closed tab's id to be below the next fresh id. A tab object passed to `closeTab` already exists, so it cannot be the home tab the call creates. The same holds for `Tabs.BrowserTabs.LegacyCloseTab`.
- Coroutines, dispatchers and delays: a launched body runs at once, except the delayed history save, which stays pending until `SaveJobFires` runs it. Interleavings of concurrent bodies are not modelled. The delayed progress-bar hide and notification clear are modelled by their guards only.
- Storage (Room DAOs, repositories, settings store) is not modelled. Each write is a command appended to a log, and each query's answer is an argument.
- Parsing the update manifest and downloading the APK are not modelled. The manifest, or a fetch failure, is an input, and download progress reports are inputs.
- The legacy `UpdateChecker` is not part of this model. Its result is the fetched version code, and "has update" means that code is greater than the current one.
- Calendar arithmetic becomes a `dayOf` function parameter, and "same day" means equal `dayOf` values.
- Events emitted through flows are an unbounded sequence. The 16-event buffer of the update events flow is not modelled.
- The favicon pool's `LruCache` is an unbounded map: eviction by byte size is not modelled. The mutex-guarded in-flight map, which merges concurrent lookups of one host, is left out.
- Favicon disk files and host records are maps. Failures to create the directory, to decode, or to download surface as an absent bitmap from the `download` parameter.
- The host configuration's popup-level constants are not part of this model. The levels are a datatype, and the default level is a parameter.
- The `Download` record is not part of this model. Its `CANCELLED_MARK` and `BROKEN_MARK` constants are parameters, and a size label stands for its formatted text.
- Downloads.Percent: `bytesReceived * 100` is computed without 64-bit `Long` overflow. Only the final `toInt()` wraps. The two differ only for byte counts above 2^63 / 100.
- The `FavoriteItem`, `HistoryItem` and `HomePageLink` classes are not part of this model. Their fields are taken from how the core uses them, and `HomePageLink.fromBookmarkItem` is a function parameter.
- FavoritesDialogs.FavoritesDialog.OnItemEdited: the dialog edits the very item object held in its list, so an update shows in place. The model replaces the item with that id instead, and the loading indicator shown while the write runs is not visible after the method.
- Version-code migrations, `prepareSwitchToIncognito` and `clearIncognitoData` (temporary-file and directory operations) are left out of both history view models.
- Voice search: the RMS level is a `real`. The SDK-version test and the availability of on-device recognition are one boolean input. The error toast is not modelled.
- Platform calls are parameters: the web-URL pattern, URL encoding, URL host parsing, key-code names, meta-state normalisation, reflection-based engine bootstrap, and the engines' own initialisation.
- Updates.AvailableChannels: its contract states each name once and exactly the manifest's names. First-appearance order is stated separately by `Updates.DistinctFromPrefix`.
- Updates.ChangelogHtml: its own contract gives only emptiness and a length bound. The message format is its definition, which `Updates.BuildChangelogMessage` and `Updates.UpdateAvailableDialog` are proved against.
- Tabs.BrowserTabs.OnCreateWindow: the popup level is the `hostLevel` parameter. The model does not tie it to the caller tab's cached host configuration (app/src/main/java/org/mlm/browkorftv/activity/main/MainActivity.kt:1186), which is not part of this model.
- Tabs.BrowserTabs.OnPageStarted: models the new activity, which always shows the URL. The legacy activity's guard, which updates the address box only for the tab at the title strip's current index (app/src/main/java/com/phlox/tvwebbrowser/activity/main/MainActivity.kt:1154-1156), is not modelled.
- The browser screen's effects on `currentKey` are not modelled (app/src/main/java/org/mlm/browkorftv/ui/screens/BrowserScreen.kt:100-135). On entering Browser they resume the current tab's engine. On leaving it they pause the engine, disable the cursor and clear the page focus. These are engine and focus calls outside the UI state.
- EngineFactory.WebEngineFactory.IsInitialized: it has no contract of its own. Its meaning, "a provider is initialised", is used by the contract of `EngineFactory.WebEngineFactory.GetWebEngineVersionString`.

## Findings

| source | as written | input that shows it | evidently intended | confidence | as-written member | corrected member |
|---|---|---|---|---|---|---|
| app/src/main/java/org/mlm/browkorftv/singleton/shortcuts/ShortcutMgr.kt:64-75 | clearing a shortcut (key code 0) removes its preference keys, so on the next start the binding falls back to its default key | clear MENU, then restart: MENU is bound to KEYCODE_MENU again | a cleared shortcut stays unassigned across restarts (store key code 0) | high (not executed) | Shortcuts.ShortcutMgr.UpdateBindingAsWritten, Shortcuts.ClearedShortcutRevivesAfterRestart, Shortcuts.ShortcutsScreen.ClearKey | Shortcuts.ShortcutMgr.UpdateBinding, Shortcuts.UpdateSurvivesRestart |
| app/src/main/java/com/phlox/tvwebbrowser/activity/main/MainActivity.kt:1376-1379 | the quote strip tests starts-with and ends-with `"` and then takes `substring(1, length - 1)` | the one-character link `"`: `substring(1, 0)` throws | strip a pair of quotes only from text of at least two characters | high (not executed) | BrowserPolicy.LegacyStripQuotesAsWritten, BrowserPolicy.LegacyStripThrowsOnLoneQuote, BrowserPolicy.SuggestActionsForLink | BrowserPolicy.StripQuotePair |
| app/src/main/java/com/phlox/tvwebbrowser/activity/main/AutoUpdateViewModel.kt:21-54 | a stored notification time of 0 reads as "now", so the user counts as notified today | fresh install (stored time 0): the startup check never runs and an unforced dialog never shows, so the time is never written | no stored time means never notified, as the newer view model's `> 0` guard does | medium (not executed) | Updates.LegacyLastNotificationTime, Updates.FreshInstallNeverNotified, Updates.AutoUpdateViewModel.StartupAutoCheck | Updates.NotifiedTodayCorrected |
| app/src/main/java/org/mlm/browkorftv/activity/main/MainActivity.kt:1009 | `openInNewTab(url, index, true, navigateImmediately)` passes its flags by position, but the parameters were reordered to `navigateImmediately, needToHideMenuOverlay` (lines 638-643) | a request with `navigateImmediately = false`: the page loads at once and the menu is not toggled | load the page only when asked and toggle the menu, as the legacy activity's call does with its own parameter order | medium (not executed) | Tabs.BrowserTabs.OnOpenInNewTabRequested | Tabs.BrowserTabs.OnOpenInNewTabRequestedCorrected |
