/** The browser activity's pure decisions: the popup-blocking table, the
    URL-or-search classification of typed text, the link URL taken from a
    context menu and the actions offered for a link or a text selection. */
module BrowserPolicy {
  import opened Strings

  /** A host's popup-blocking level. The three named levels are the ones the
      policy distinguishes; every other stored value falls into `OtherLevel`. */
  datatype PopupLevel = BlockNone | BlockDialogs | BlockNewAutoOpenedTabs | OtherLevel(value: int)

  /** How strict a level is: each level blocks at least what the previous one does. */
  function Strictness(level: PopupLevel): (r: nat)
    ensures r <= 3
  {
    match level
    case BlockNone => 0
    case BlockDialogs => 1
    case BlockNewAutoOpenedTabs => 2
    case OtherLevel(_) => 3
  }

  /** The popup table: what a level blocks, for a dialog or a new window,
      opened with or without a user gesture. */
  function BlocksAtLevel(level: PopupLevel, dialog: bool, userGesture: bool): (r: bool)
    ensures level == BlockNone ==> !r
    ensures level == BlockDialogs ==> (r <==> dialog)
    ensures level == BlockNewAutoOpenedTabs ==> (r <==> dialog || !userGesture)
    ensures level.OtherLevel? ==> r
  {
    match level
    case BlockNone => false
    case BlockDialogs => dialog
    case BlockNewAutoOpenedTabs => dialog || !userGesture
    case OtherLevel(_) => true
  }

  /** `shouldBlockNewWindow(dialog, userGesture)` for a tab whose cached host
      configuration has level `hostLevel` (None: no host configuration, so the
      default level applies). */
  function ShouldBlockNewWindow(hostLevel: Option<PopupLevel>, defaultLevel: PopupLevel,
                                dialog: bool, userGesture: bool): (r: bool)
    ensures hostLevel.Some? ==> r == BlocksAtLevel(hostLevel.value, dialog, userGesture)
    ensures hostLevel.None? ==> r == BlocksAtLevel(defaultLevel, dialog, userGesture)
  {
    BlocksAtLevel(hostLevel.GetOr(defaultLevel), dialog, userGesture)
  }

  /** The levels are ordered: whatever a level blocks, every stricter level blocks too. */
  lemma BlockingMonotone(a: PopupLevel, b: PopupLevel, dialog: bool, userGesture: bool)
    requires Strictness(a) <= Strictness(b)
    requires BlocksAtLevel(a, dialog, userGesture)
    ensures BlocksAtLevel(b, dialog, userGesture)
  {
  }

  /** A dialog is blocked at every level but NONE; a window the user opened by
      a gesture, that is not a dialog, is blocked only above NEW_AUTO_OPENED_TABS. */
  lemma BlockingByKind(level: PopupLevel)
    ensures BlocksAtLevel(level, true, false) <==> level != BlockNone
    ensures BlocksAtLevel(level, false, true) <==> level.OtherLevel?
  {
  }

  /** `isDialogsBlockingEnabled` for a tab showing `tabUrl`. */
  function IsDialogsBlockingEnabled(tabUrl: string, homePageUrl: string, hostLevel: Option<PopupLevel>,
                                    defaultLevel: PopupLevel): (r: bool)
    ensures r <==> tabUrl != homePageUrl && hostLevel.GetOr(defaultLevel) != BlockNone
  {
    if tabUrl == homePageUrl then false
    else
      BlockingByKind(hostLevel.GetOr(defaultLevel));
      ShouldBlockNewWindow(hostLevel, defaultLevel, true, false)
  }

  // ---------------------------------------------------------------- search

  /** What typing `text` into the address bar does. */
  datatype SearchOutcome =
    | NavigateTo(url: string)
    | EncodingError          // URLEncoder refused the text: a toast, nothing loaded

  /** Typed text is taken as an address when the platform's web-URL pattern
      matches it, or its trimmed lower-case form starts with an http(s) scheme.
      (Lower-casing can only map ASCII capitals onto the letters of "http://"
      and "https://", so folding ASCII is exact here.) */
  predicate LooksLikeUrl(text: string, webUrlMatches: bool) {
    var t := LowerAsciiString(Trim(text));
    webUrlMatches || StartsWith(t, "http://") || StartsWith(t, "https://")
  }

  /** The address an address-like text is loaded as: "https://" is prepended
      when the text names no scheme. */
  function AddressFor(text: string): (r: string)
    ensures Contains(r, "://") && EndsWith(r, text)
    ensures Contains(text, "://") ==> r == text
  {
    if Contains(text, "://") then
      assert text[|text| - |text|..] == text;
      text
    else
      var u := "https://" + text;
      assert u[5..8] == "://";
      ContainsAt(u, "://", 5);
      assert u[|u| - |text|..] == text;
      u
  }

  /** `search(text)`. `webUrlMatches` is the web-URL pattern's answer and
      `encoded` the UTF-8 form-encoding of the text (None: encoding failed). */
  function Search(text: string, webUrlMatches: bool, encoded: Option<string>, searchEngineUrl: string)
    : (r: SearchOutcome)
    ensures LooksLikeUrl(text, webUrlMatches) ==> r == NavigateTo(AddressFor(text))
    ensures !LooksLikeUrl(text, webUrlMatches) ==> (r == EncodingError <==> encoded.None?)
    ensures !LooksLikeUrl(text, webUrlMatches) && encoded.Some? ==>
              r == NavigateTo(ReplaceAll(searchEngineUrl, "[query]", encoded.value))
  {
    if LooksLikeUrl(text, webUrlMatches) then NavigateTo(AddressFor(text))
    else match encoded
      case None => EncodingError
      case Some(q) => NavigateTo(ReplaceAll(searchEngineUrl, "[query]", q))
  }

  /** A typed address is loaded with a scheme separator and ends with the text
      as typed; text that already has one is loaded unchanged. */
  lemma SearchAddress(text: string, webUrlMatches: bool, encoded: Option<string>, searchEngineUrl: string)
    requires LooksLikeUrl(text, webUrlMatches)
    ensures var r := Search(text, webUrlMatches, encoded, searchEngineUrl);
            r.NavigateTo? && Contains(r.url, "://") && EndsWith(r.url, text)
            && (Contains(text, "://") <==> r.url == text)
  {
    var u := AddressFor(text);
    if u == text {
      assert Contains(text, "://");
    }
  }

  /** A search-engine URL without the placeholder is loaded as it is, whatever was typed. */
  lemma SearchWithoutPlaceholder(text: string, webUrlMatches: bool, q: string, searchEngineUrl: string)
    requires !LooksLikeUrl(text, webUrlMatches) && !Contains(searchEngineUrl, "[query]")
    ensures Search(text, webUrlMatches, Some(q), searchEngineUrl) == NavigateTo(searchEngineUrl)
  {
    ReplaceAllAbsent(searchEngineUrl, "[query]", q);
  }

  /** Text before the first '[' is copied unchanged by the placeholder substitution. */
  lemma {:induction false} ReplaceAfterPlainPrefix(p: string, t: string, rep: string)
    requires '[' !in p
    ensures ReplaceAll(p + t, "[query]", rep) == p + ReplaceAll(t, "[query]", rep)
    decreases |p|
  {
    if p != [] {
      var s := p + t;
      var x := ReplaceAll(t, "[query]", rep);
      assert s[1..] == p[1..] + t;
      ReplaceAfterPlainPrefix(p[1..], t, rep);
      if |s| >= 7 {
        assert s[..7][0] == p[0];
        assert s[..7] != "[query]";
        calc {
          ReplaceAll(s, "[query]", rep);
          [s[0]] + ReplaceAll(s[1..], "[query]", rep);
          [p[0]] + (p[1..] + x);
          { assert [p[0]] + p[1..] == p; }
          p + x;
        }
      } else {
        assert x == t;
        assert ReplaceAll(s, "[query]", rep) == s;
      }
    } else {
      assert p + t == t;
    }
  }

  /** An engine URL that ends in the placeholder, with no '[' before it, gets
      the encoded query in its place. */
  lemma SearchFillsTrailingPlaceholder(text: string, webUrlMatches: bool, q: string, prefix: string)
    requires !LooksLikeUrl(text, webUrlMatches) && '[' !in prefix
    ensures Search(text, webUrlMatches, Some(q), prefix + "[query]") == NavigateTo(prefix + q)
  {
    ReplaceAfterPlainPrefix(prefix, "[query]", q);
    assert ReplaceAll("[query]", "[query]", q) == q + ReplaceAll([], "[query]", q);
  }

  // ---------------------------------------------------------- link actions

  /** Drops the leading run of `c`. */
  function TrimCharStart(s: string, c: char): (r: string)
    ensures |r| <= |s| && r == s[|s| - |r|..]
    ensures r == [] || r[0] != c
    ensures forall i :: 0 <= i < |s| - |r| ==> s[i] == c
  {
    if s == [] || s[0] != c then s
    else
      var r := TrimCharStart(s[1..], c);
      r
  }

  /** Drops the trailing run of `c`. */
  function TrimCharEnd(s: string, c: char): (r: string)
    ensures |r| <= |s| && r == s[..|r|]
    ensures r == [] || r[|r| - 1] != c
    ensures forall i :: |r| <= i < |s| ==> s[i] == c
  {
    if s == [] || s[|s| - 1] != c then s
    else
      var r := TrimCharEnd(s[..|s| - 1], c);
      r
  }

  /** Kotlin `trim(c)`: drops every leading and trailing occurrence of `c`. */
  function TrimChar(s: string, c: char): (r: string)
    ensures |r| <= |s|
    ensures r == [] || (r[0] != c && r[|r| - 1] != c)
  {
    TrimCharEnd(TrimCharStart(s, c), c)
  }

  /** `trim(c)` keeps a contiguous middle part of the string and drops only
      copies of `c` around it. */
  lemma {:induction false} TrimCharDropsOnlyC(s: string, c: char)
    ensures var a := |s| - |TrimCharStart(s, c)|;
            var r := TrimChar(s, c);
            a + |r| <= |s| && r == s[a..a + |r|]
            && (forall i :: 0 <= i < a ==> s[i] == c)
            && (forall i :: a + |r| <= i < |s| ==> s[i] == c)
  {
    TrimCharSlice(s, c);
    TrimCharTail(s, c);
  }

  /** The kept part is the slice of `s` that starts after the leading run. */
  lemma {:induction false} TrimCharSlice(s: string, c: char)
    ensures var a := |s| - |TrimCharStart(s, c)|;
            var r := TrimChar(s, c);
            a + |r| <= |s| && r == s[a..a + |r|]
  {
    var t := TrimCharStart(s, c);
    var r := TrimCharEnd(t, c);
    var a := |s| - |t|;
    assert t == s[a..];
    assert r == t[..|r|];
    assert r == s[a..a + |r|];
  }

  /** Everything after the kept part is a copy of `c`. */
  lemma {:induction false} TrimCharTail(s: string, c: char)
    ensures var a := |s| - |TrimCharStart(s, c)|;
            forall i :: a + |TrimChar(s, c)| <= i < |s| ==> s[i] == c
  {
    var t := TrimCharStart(s, c);
    var r := TrimCharEnd(t, c);
    var a := |s| - |t|;
    forall i | a + |r| <= i < |s|
      ensures s[i] == c
    {
      assert t == s[a..];
      assert s[i] == t[i - a];
    }
  }

  /** What was under the cursor when the context menu opened. */
  datatype ContextMenuCtx = ContextMenuCtx(linkUri: Option<string>, srcUri: Option<string>)

  /** `currentLinkUrl()`: the link URL, else the source URL, with surrounding
      quote characters removed; nothing when no context menu was recorded. */
  function CurrentLinkUrl(ctx: Option<ContextMenuCtx>): (r: Option<string>)
    ensures r.Some? <==> ctx.Some? && (ctx.value.linkUri.Some? || ctx.value.srcUri.Some?)
    ensures r.Some? && ctx.value.linkUri.Some? ==> r.value == TrimChar(ctx.value.linkUri.value, '"')
    ensures r.Some? && ctx.value.linkUri.None? ==> r.value == TrimChar(ctx.value.srcUri.value, '"')
    ensures r.Some? ==> r.value == [] || (r.value[0] != '"' && r.value[|r.value| - 1] != '"')
  {
    match ctx
    case None => None
    case Some(c) =>
      if c.linkUri.Some? then Some(TrimChar(c.linkUri.value, '"'))
      else if c.srcUri.Some? then Some(TrimChar(c.srcUri.value, '"'))
      else None
  }

  predicate IsHttpUrl(url: string) {
    StartsWith(url, "http://") || StartsWith(url, "https://")
  }

  /** `getLinkCapabilities`: the pair (isWebUrl, hasUrl) for the current link. */
  function LinkCapabilities(url: Option<string>): (r: (bool, bool))
    ensures r.1 <==> url.Some? && !IsBlank(url.value)
    ensures r.0 <==> r.1 && IsHttpUrl(url.value)
  {
    var hasUrl := url.Some? && !IsBlank(url.value);
    (hasUrl && IsHttpUrl(url.value), hasUrl)
  }

  /** A web URL is always a URL, and any http(s) URL counts as a web URL: the
      blank test never rejects it. */
  lemma WebUrlImpliesUrl(url: Option<string>)
    ensures LinkCapabilities(url).0 ==> LinkCapabilities(url).1
    ensures LinkCapabilities(url).0 <==> url.Some? && IsHttpUrl(url.value)
  {
    if url.Some? && IsHttpUrl(url.value) {
      assert url.value[0] == 'h' && !IsWhitespace('h');
    }
  }

  /** The result of the legacy quote strip: a string, or the exception that
      `substring` throws when its end index is before its start index. */
  datatype Stripped = Stripped(s: string) | IndexOutOfBounds

  /** The legacy link-menu quote strip as written: when the URL starts and
      ends with a quote character, `substring(1, length - 1)` is taken. */
  function LegacyStripQuotesAsWritten(s: string): (r: Stripped)
    ensures r.IndexOutOfBounds? <==> s == "\""
    ensures !(StartsWith(s, "\"") && EndsWith(s, "\"")) ==> r == Stripped(s)
  {
    if StartsWith(s, "\"") && EndsWith(s, "\"") then
      if 1 > |s| - 1 then IndexOutOfBounds else Stripped(s[1..|s| - 1])
    else Stripped(s)
  }

  /** A URL consisting of a single quote character passes both tests and makes
      the legacy strip throw. */
  lemma LegacyStripThrowsOnLoneQuote()
    ensures LegacyStripQuotesAsWritten("\"").IndexOutOfBounds?
  {
  }

  /** The quote strip as intended: one surrounding pair is removed from a quoted
      URL of at least two characters; every other URL is kept. */
  function StripQuotePair(s: string): (r: string)
    ensures |s| >= 2 && s[0] == '"' && s[|s| - 1] == '"' ==> r == s[1..|s| - 1] && |r| == |s| - 2
    ensures !(|s| >= 2 && s[0] == '"' && s[|s| - 1] == '"') ==> r == s
    ensures s != "\"" ==> LegacyStripQuotesAsWritten(s) == Stripped(r)
  {
    if |s| >= 2 && s[0] == '"' && s[|s| - 1] == '"' then s[1..|s| - 1] else s
  }

  /** Which entries of the legacy link popup menu are visible. */
  datatype LinkMenu = LinkMenu(openInNewTab: bool, openInExternalApp: bool, download: bool,
                               copyToClipboard: bool, share: bool)

  /** `suggestActionsForLink` as written: the link URL, else the source URL,
      goes through the legacy quote strip; a lone quote makes it throw and no
      menu is built (`None`). Otherwise open, external-app and download need
      an http(s) URL and copy and share need any URL. */
  function SuggestActionsForLink(linkUri: Option<string>, srcUri: Option<string>): (r: Option<LinkMenu>)
    ensures var s := if linkUri.Some? then linkUri else srcUri;
            r.None? <==> s == Some("\"")
    ensures var s := if linkUri.Some? then linkUri else srcUri;
            r.Some? ==>
              && r.value.copyToClipboard == r.value.share == s.Some?
              && r.value.openInNewTab == r.value.openInExternalApp == r.value.download
              && (r.value.openInNewTab <==> s.Some? && IsHttpUrl(LegacyStripQuotesAsWritten(s.value).s))
              && (r.value.openInNewTab <==> s.Some? && IsHttpUrl(StripQuotePair(s.value)))
  {
    var s := if linkUri.Some? then linkUri else srcUri;
    if s.None? then Some(LinkMenu(false, false, false, false, false))
    else
      match LegacyStripQuotesAsWritten(s.value)
      case IndexOutOfBounds => None
      case Stripped(url) =>
        var isHttp := IsHttpUrl(url);
        Some(LinkMenu(isHttp, isHttp, isHttp, true, true))
  }

  // -------------------------------------------------------- text selection

  datatype TextAction = Copy | Cut | Delete | Paste | Share | SearchText

  /** The place of an action in the dialog's fixed order. */
  function Rank(a: TextAction): nat {
    match a
    case Copy => 0
    case Cut => 1
    case Delete => 2
    case Paste => 3
    case Share => 4
    case SearchText => 5
  }

  /** `onSelectedTextActionRequested`: the actions offered for a selection.
      `clipHasItem` says the primary clip exists and holds at least one item. */
  method SelectedTextActions(selectedText: string, editable: bool, clipHasItem: bool)
    returns (actions: seq<TextAction>)
    ensures |actions| >= 2 && actions[0] == Copy
    ensures Cut in actions <==> editable
    ensures Delete in actions <==> editable
    ensures Paste in actions <==> editable && clipHasItem
    ensures Share in actions
    ensures SearchText in actions <==> '\n' !in selectedText
    ensures actions[|actions| - 1] == (if '\n' in selectedText then Share else SearchText)
    ensures forall i, j :: 0 <= i < j < |actions| ==> Rank(actions[i]) < Rank(actions[j])
  {
    ContainsChar(selectedText, '\n');
    var multiline := Contains(selectedText, "\n");
    if editable && clipHasItem {
      actions := if multiline then [Copy, Cut, Delete, Paste, Share] else [Copy, Cut, Delete, Paste, Share, SearchText];
    } else if editable {
      actions := if multiline then [Copy, Cut, Delete, Share] else [Copy, Cut, Delete, Share, SearchText];
    } else {
      actions := if multiline then [Copy, Share] else [Copy, Share, SearchText];
    }
  }
}
