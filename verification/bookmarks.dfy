/** Bookmark editing: the bookmark editor screen (its URL normaliser, the
    record it loads and the record it saves) and the home-page slot editor. */
module Bookmarks {
  import opened Strings
  import opened Records

  // ---------------------------------------------------------------------
  // URL normalisation
  // ---------------------------------------------------------------------

  predicate IsAsciiLetter(c: char) {
    'A' <= c <= 'Z' || 'a' <= c <= 'z'
  }

  /** A character allowed after the first one of a URI scheme: ALPHA, DIGIT,
      "+", "-" or "." (section 3.1 of RFC 3986). */
  predicate IsSchemeChar(c: char) {
    IsAsciiLetter(c) || '0' <= c <= '9' || c == '+' || c == '-' || c == '.'
  }

  /** The characters a regular-expression `.` does not match. */
  predicate IsLineTerminator(c: char) {
    c == '\n' || c == '\r' || c == '\U{0085}' || c == '\U{2028}' || c == '\U{2029}'
  }

  predicate SingleLine(s: string) {
    forall i :: 0 <= i < |s| ==> !IsLineTerminator(s[i])
  }

  /** Length of the longest prefix of scheme characters. */
  function SchemeRun(t: string): (n: nat)
    ensures n <= |t|
    ensures forall i :: 0 <= i < n ==> IsSchemeChar(t[i])
    ensures n < |t| ==> !IsSchemeChar(t[n])
  {
    if t == [] || !IsSchemeChar(t[0]) then 0 else 1 + SchemeRun(t[1..])
  }

  /** Whether all of `t` matches `^[A-Za-z][A-Za-z0-9+.-]*://.*$`: a letter,
      the longest run of scheme characters after it, then "://" and a rest
      without line terminators. */
  predicate HasScheme(t: string) {
    var n := SchemeRun(t);
    |t| > 0 && IsAsciiLetter(t[0]) && n + 3 <= |t| && t[n] == ':' && t[n + 1] == '/' && t[n + 2] == '/'
    && SingleLine(t[n + 3..])
  }

  /** The regular expression read literally: some split of `t` into a
      scheme, "://" and a single-line rest. */
  predicate SchemeSplitAt(t: string, k: int) {
    1 <= k && k + 3 <= |t| && IsAsciiLetter(t[0])
    && (forall i :: 1 <= i < k ==> IsSchemeChar(t[i]))
    && t[k..k + 3] == "://" && SingleLine(t[k + 3..])
  }

  /** Reading the scheme as the longest run loses no match: the run ends at
      the only ":" a scheme can be followed by. */
  lemma HasSchemeIffSplit(t: string)
    ensures HasScheme(t) <==> exists k :: SchemeSplitAt(t, k)
  {
    var n := SchemeRun(t);
    if HasScheme(t) {
      assert t[n..][..3] == t[n..n + 3];
      assert SchemeSplitAt(t, n);
    }
    if exists k :: SchemeSplitAt(t, k) {
      var k :| SchemeSplitAt(t, k);
      assert t[k] == ':';
      assert n == k;
      assert t[n..][..3] == t[n..n + 3];
    }
  }

  /** `normalizeUrl`: the trimmed input, "" when it is blank, kept as it is
      when it already has a scheme and "://", and otherwise behind
      "https://". A trimmed string is blank exactly when it is empty
      (`BlankIffTrimEmpty`), so the blank test is written as emptiness. */
  function NormalizeUrl(s: string): (r: string)
    ensures r == [] <==> Trim(s) == []
    ensures r != [] ==> EndsWith(r, Trim(s))
    ensures r != [] ==> (r == Trim(s) <==> HasScheme(Trim(s)))
    ensures Trim(s) != [] && !HasScheme(Trim(s)) ==> r == "https://" + Trim(s)
  {
    var t := Trim(s);
    if t == [] then ""
    else if HasScheme(t) then
      assert t[|t| - |t|..] == t;
      t
    else
      var r := "https://" + t;
      assert |r| == |t| + 8 && r[|r| - |t|..] == t;
      r
  }

  /** "https://" before a single-line host is a URL with a scheme. */
  lemma HttpsPrefixHasScheme(t: string)
    requires SingleLine(t)
    ensures HasScheme("https://" + t)
  {
    var u := "https://" + t;
    var n := SchemeRun(u);
    assert u[..8] == "https://";
    assert !IsSchemeChar(u[5]);
    assert n == 5;
    assert u[n..][..3] == "://";
    assert u[n + 3..] == t;
  }

  /** A trimmed, non-blank URL with a scheme is its own normal form. */
  lemma NormalizeUrlFixed(u: string)
    requires Trim(u) == u && u != [] && HasScheme(u)
    ensures NormalizeUrl(u) == u
  {
    assert !IsWhitespace(u[0]);
  }

  /** "https://" before a trimmed, single-line, non-empty host is in normal
      form. */
  lemma HttpsPrefixedIsNormal(t: string, u: string)
    requires Trim(t) == t && t != [] && SingleLine(t) && u == "https://" + t
    ensures HasScheme(u) && NormalizeUrl(u) == u
  {
    HttpsPrefixHasScheme(t);
    assert u[|u| - 1] == t[|t| - 1];
    assert !IsWhitespace(u[0]);
    TrimKeeps(u);
    NormalizeUrlFixed(u);
  }

  /** A normalised single-line URL has a scheme and normalises to itself.
      (A line terminator inside the input defeats the pattern, so such an
      input gains a further "https://" each time it is normalised.) */
  lemma NormalizeUrlIdempotent(s: string)
    requires SingleLine(Trim(s)) && NormalizeUrl(s) != []
    ensures HasScheme(NormalizeUrl(s))
    ensures NormalizeUrl(NormalizeUrl(s)) == NormalizeUrl(s)
  {
    var t := Trim(s);
    TrimIdempotent(s);
    BlankIffTrimEmpty(t);
    if HasScheme(t) {
      NormalizeUrlFixed(t);
    } else {
      HttpsPrefixedIsNormal(t, "https://" + t);
    }
  }

  // ---------------------------------------------------------------------
  // Bookmark editor screen
  // ---------------------------------------------------------------------

  /** The record the editor loads: by id when it has one, else the first
      home bookmark in the slot it edits, else nothing. `byId` answers the
      lookup by id; `homeBookmarks` lists the home-page bookmarks. */
  function LoadedItem(id: Option<int>, homeSlotOrder: Option<int>,
                      byId: int -> Option<FavoriteItem>, homeBookmarks: seq<FavoriteItem>): (r: Option<FavoriteItem>)
    ensures id.Some? ==> r == byId(id.value)
    ensures id.None? && homeSlotOrder.Some? ==>
              && (r.None? <==> forall i :: 0 <= i < |homeBookmarks| ==> homeBookmarks[i].order != homeSlotOrder.value)
              && (r.Some? ==> r.value in homeBookmarks && r.value.order == homeSlotOrder.value)
              && (r.Some? ==> exists k :: 0 <= k < |homeBookmarks| && homeBookmarks[k] == r.value
                                          && forall i :: 0 <= i < k ==> homeBookmarks[i].order != homeSlotOrder.value)
    ensures id.None? && homeSlotOrder.None? ==> r.None?
  {
    if id.Some? then byId(id.value)
    else if homeSlotOrder.Some? then FirstWithOrder(homeBookmarks, homeSlotOrder.value)
    else None
  }

  /** The record Save starts from: the stored one when the editor has an id
      and it is still there, else a new item. */
  function SaveBase(existingId: Option<int>, byId: int -> Option<FavoriteItem>): (base: FavoriteItem)
    ensures existingId.None? ==> base == NewFavoriteItem()
    ensures existingId.Some? && byId(existingId.value).Some? ==> base == byId(existingId.value).value
    ensures existingId.Some? && byId(existingId.value).None? ==> base == NewFavoriteItem()
  {
    if existingId.Some? && byId(existingId.value).Some? then byId(existingId.value).value else NewFavoriteItem()
  }

  /** The record Save writes: the trimmed title, or the URL when that is
      blank; the normalised URL; the top-level folder; and for a home slot
      the home-page flag and the slot's order. */
  function SavedItem(base: FavoriteItem, title: string, norm: string, homeSlotOrder: Option<int>): (item: FavoriteItem)
    requires !IsBlank(norm)
    ensures item.id == base.id && item.isFolder == base.isFolder && item.validUntil == base.validUntil
    ensures item.url == Some(norm) && item.parent == 0
    ensures item.title.Some? && !IsBlank(item.title.value)
    ensures !IsBlank(Trim(title)) ==> item.title == Some(Trim(title))
    ensures IsBlank(Trim(title)) ==> item.title == Some(norm)
    ensures item.homePageBookmark <==> homeSlotOrder.Some?
    ensures item.order == if homeSlotOrder.Some? then homeSlotOrder.value else base.order
  {
    var t := Trim(title);
    var named := if IsBlank(t) then norm else t;
    var item := base.(title := Some(named), url := Some(norm), parent := 0);
    if homeSlotOrder.Some? then item.(homePageBookmark := true, order := homeSlotOrder.value)
    else item.(homePageBookmark := false)
  }

  /** What Save writes: nothing when the URL normalises to blank, else the
      saved record, inserted or updated. */
  function SaveWrites(existingId: Option<int>, byId: int -> Option<FavoriteItem>,
                      title: string, url: string, homeSlotOrder: Option<int>): (w: seq<FavoritesCommand>)
    ensures |w| <= 1
    ensures w != [] ==>
              && !IsBlank(url)
              && (w[0].InsertFavorite? || w[0].UpdateFavorite?)
              && w[0].item.url == Some(NormalizeUrl(url))
              && w[0].item.id == SaveBase(existingId, byId).id
              && (w[0].InsertFavorite? <==> SaveBase(existingId, byId).id == 0)
              && (w[0].item.homePageBookmark <==> homeSlotOrder.Some?)
              && !IsBlank(NormalizeUrl(url))
              && w[0].item == SavedItem(SaveBase(existingId, byId), title, NormalizeUrl(url), homeSlotOrder)
  {
    NormalizeUrlBlankIff(url);
    var norm := NormalizeUrl(url);
    if IsBlank(norm) then [] else [StoreCommand(SavedItem(SaveBase(existingId, byId), title, norm, homeSlotOrder))]
  }

  /** The normalised URL is blank exactly when the input is. */
  lemma NormalizeUrlBlankIff(s: string)
    ensures IsBlank(NormalizeUrl(s)) <==> IsBlank(s)
  {
    var t := Trim(s);
    var norm := NormalizeUrl(s);
    BlankIffTrimEmpty(s);
    assert t == [] || !IsWhitespace(t[|t| - 1]);
    assert norm == [] <==> t == [];
    assert norm != [] ==> EndsWith(norm, t);
    NonEmptyNormalIsNotBlank(norm, t);
  }

  lemma NonEmptyNormalIsNotBlank(norm: string, t: string)
    requires norm == [] <==> t == []
    requires norm != [] ==> EndsWith(norm, t)
    requires t == [] || !IsWhitespace(t[|t| - 1])
    ensures IsBlank(norm) <==> t == []
  {
    if norm != [] {
      assert norm[|norm| - 1] == t[|t| - 1];
    }
  }

  /** Save writes nothing exactly when the URL field is blank. */
  lemma SaveWritesNothingIffBlank(existingId: Option<int>, byId: int -> Option<FavoriteItem>,
                                  title: string, url: string, homeSlotOrder: Option<int>)
    ensures SaveWrites(existingId, byId, title, url, homeSlotOrder) == [] <==> IsBlank(url)
  {
    NormalizeUrlBlankIff(url);
  }

  /** Save inserts exactly when there is no stored record to start from: no
      id, an id that is gone, or a record loaded with id 0. */
  lemma SaveInsertsIffNew(existingId: Option<int>, byId: int -> Option<FavoriteItem>,
                          title: string, norm: string, homeSlotOrder: Option<int>)
    requires !IsBlank(norm)
    ensures StoreCommand(SavedItem(SaveBase(existingId, byId), title, norm, homeSlotOrder)).InsertFavorite?
            <==> existingId.None? || byId(existingId.value).None? || byId(existingId.value).value.id == 0
  {
  }

  /** A saved home slot is what the slot lookup finds first when it is
      listed first among the home bookmarks. */
  lemma SavedSlotIsFound(base: FavoriteItem, title: string, norm: string, slot: int,
                         rest: seq<FavoriteItem>, byId: int -> Option<FavoriteItem>)
    requires !IsBlank(norm)
    ensures var item := SavedItem(base, title, norm, Some(slot));
      LoadedItem(None, Some(slot), byId, [item] + rest) == Some(item)
      && item.homePageBookmark && item.url == Some(norm)
  {
    var item := SavedItem(base, title, norm, Some(slot));
    assert ([item] + rest)[0] == item;
  }

  class BookmarkEditor {
    /** The bookmark being edited, if any. */
    const id: Option<int>
    /** The home-page slot being edited, if any. */
    const homeSlotOrder: Option<int>
    var loading: bool
    /** The id of the loaded record, when it is a stored one. */
    var existingId: Option<int>
    var title: string
    var url: string
    var commands: seq<FavoritesCommand>
    /** Whether the screen has asked to close. */
    var done: bool

    constructor (id: Option<int>, homeSlotOrder: Option<int>)
      ensures this.id == id && this.homeSlotOrder == homeSlotOrder
      ensures loading && existingId == None && title == "" && url == ""
      ensures commands == [] && !done
    {
      this.id := id;
      this.homeSlotOrder := homeSlotOrder;
      loading := true;
      existingId := None;
      title := "";
      url := "";
      commands := [];
      done := false;
    }

    /** `load`: a loaded record with id 0 does not count as existing; an
        absent title or URL shows as empty. */
    method Load(byId: int -> Option<FavoriteItem>, homeBookmarks: seq<FavoriteItem>)
      modifies this
      ensures var item := LoadedItem(id, homeSlotOrder, byId, homeBookmarks);
        existingId == (if item.Some? && item.value.id != 0 then Some(item.value.id) else None)
        && title == (if item.Some? then item.value.title.GetOr("") else "")
        && url == (if item.Some? then item.value.url.GetOr("") else "")
      ensures !loading && commands == old(commands) && done == old(done)
    {
      loading := true;
      var item := LoadedItem(id, homeSlotOrder, byId, homeBookmarks);
      existingId := if item.Some? && item.value.id != 0 then Some(item.value.id) else None;
      title := if item.Some? then item.value.title.GetOr("") else "";
      url := if item.Some? then item.value.url.GetOr("") else "";
      loading := false;
    }

    /** The title dialog's confirmation, or the Clear button with "". */
    method SetTitle(t: string)
      modifies this
      ensures title == t
      ensures url == old(url) && existingId == old(existingId) && commands == old(commands)
      ensures loading == old(loading) && done == old(done)
    {
      title := t;
    }

    /** The URL dialog's confirmation, or the Clear button with "". */
    method SetUrl(u: string)
      modifies this
      ensures url == u
      ensures title == old(title) && existingId == old(existingId) && commands == old(commands)
      ensures loading == old(loading) && done == old(done)
    {
      url := u;
    }

    /** Save: nothing is written when the URL normalises to blank; otherwise
        the record is inserted or updated. The screen closes either way. */
    method Save(byId: int -> Option<FavoriteItem>)
      modifies this
      ensures commands == old(commands) + SaveWrites(existingId, byId, title, url, homeSlotOrder)
      ensures done
      ensures title == old(title) && url == old(url) && existingId == old(existingId) && loading == old(loading)
    {
      commands := commands + SaveWrites(existingId, byId, title, url, homeSlotOrder);
      done := true;
    }

    /** Delete, offered only for a stored record. */
    method Delete()
      requires existingId.Some?
      modifies this
      ensures commands == old(commands) + [DeleteFavoriteById(old(existingId).value)]
      ensures done
      ensures title == old(title) && url == old(url) && existingId == old(existingId) && loading == old(loading)
    {
      commands := commands + [DeleteFavoriteById(existingId.value)];
      done := true;
    }

    /** Clear slot, offered only in the slot editor: deletes the slot's
        record if there is one. */
    method ClearSlot(homeBookmarks: seq<FavoriteItem>)
      requires homeSlotOrder.Some?
      modifies this
      ensures var existing := FirstWithOrder(homeBookmarks, homeSlotOrder.value);
        commands == old(commands) + (if existing.Some? then [DeleteFavorite(existing.value)] else [])
      ensures done
      ensures title == old(title) && url == old(url) && existingId == old(existingId) && loading == old(loading)
    {
      var existing := FirstWithOrder(homeBookmarks, homeSlotOrder.value);
      if existing.Some? {
        commands := commands + [DeleteFavorite(existing.value)];
      }
      done := true;
    }
  }

  // ---------------------------------------------------------------------
  // Home-page slot editor
  // ---------------------------------------------------------------------

  datatype SlotEditorState = SlotEditorState(title: string, url: string, canDelete: bool, saved: bool)

  /** The record a slot save starts from: the slot's existing record, or a
      new top-level home bookmark in that slot. */
  function SlotItem(existing: Option<FavoriteItem>, slotOrder: int): (item: FavoriteItem)
    ensures existing.Some? ==> item == existing.value
    ensures existing.None? ==> item.id == 0 && item.order == slotOrder && item.homePageBookmark && item.parent == 0
  {
    if existing.Some? then existing.value
    else NewFavoriteItem().(order := slotOrder, homePageBookmark := true, parent := 0)
  }

  class HomePageSlotEditor {
    const slotOrder: int
    var existingItem: Option<FavoriteItem>
    var state: SlotEditorState
    var commands: seq<FavoritesCommand>

    constructor (slotOrder: int)
      ensures this.slotOrder == slotOrder && existingItem == None
      ensures state == SlotEditorState("", "", false, false) && commands == []
    {
      this.slotOrder := slotOrder;
      existingItem := None;
      state := SlotEditorState("", "", false, false);
      commands := [];
    }

    /** `loadSlot`: the first home bookmark in this slot, shown with Delete
        enabled; nothing changes on screen when there is none. */
    method LoadSlot(homeBookmarks: seq<FavoriteItem>)
      modifies this
      ensures existingItem == FirstWithOrder(homeBookmarks, slotOrder)
      ensures existingItem.None? ==> state == old(state)
      ensures existingItem.Some? ==>
        state == old(state).(title := existingItem.value.title.GetOr(""), url := existingItem.value.url.GetOr(""),
                             canDelete := true)
      ensures commands == old(commands)
    {
      existingItem := FirstWithOrder(homeBookmarks, slotOrder);
      if existingItem.Some? {
        var item := existingItem.value;
        state := state.(title := item.title.GetOr(""), url := item.url.GetOr(""), canDelete := true);
      }
    }

    /** `save`: the title and URL overwrite the record's, which is inserted
        when new and updated otherwise; the existing record is changed in
        place. */
    method Save(title: string, url: string)
      modifies this
      ensures var item := SlotItem(old(existingItem), slotOrder).(title := Some(title), url := Some(url));
        commands == old(commands) + [StoreCommand(item)]
        && existingItem == (if old(existingItem).Some? then Some(item) else None)
      ensures state == old(state).(saved := true)
    {
      var item := SlotItem(existingItem, slotOrder).(title := Some(title), url := Some(url));
      commands := commands + [StoreCommand(item)];
      if existingItem.Some? {
        existingItem := Some(item);
      }
      state := state.(saved := true);
    }

    /** `delete`: removes the slot's record if there is one. */
    method Delete()
      modifies this
      ensures commands == old(commands) + (if existingItem.Some? then [DeleteFavorite(existingItem.value)] else [])
      ensures existingItem == old(existingItem)
      ensures state == old(state).(saved := true)
    {
      if existingItem.Some? {
        commands := commands + [DeleteFavorite(existingItem.value)];
      }
      state := state.(saved := true);
    }
  }

  /** Saving an empty slot inserts a new home bookmark in that slot; saving
      a loaded slot updates the loaded record under its own id. */
  lemma SlotSaveTarget(existing: Option<FavoriteItem>, slotOrder: int, title: string, url: string)
    ensures var c := StoreCommand(SlotItem(existing, slotOrder).(title := Some(title), url := Some(url)));
      (existing.None? ==> c.InsertFavorite? && c.item.order == slotOrder && c.item.homePageBookmark)
      && (existing.Some? && existing.value.id != 0 ==> c.UpdateFavorite? && c.item.id == existing.value.id)
      && c.item.title == Some(title) && c.item.url == Some(url)
  {
  }
}
