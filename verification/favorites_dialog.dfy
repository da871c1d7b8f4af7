/** The legacy bookmarks dialog: the list of favorites it keeps in memory,
    the edit-mode switch, choosing an item, and the storage writes of adding,
    editing and deleting. Items are values; an item is known by its row id. */
module FavoritesDialogs {
  import opened Strings
  import opened Records

  /** The item the Add button opens the editor with: a new item pre-filled
      with the current page's title and URL. */
  function AddItemPrefill(pageTitle: Option<string>, pageUrl: Option<string>): (item: FavoriteItem)
    ensures item.id == 0 && item.title == pageTitle && item.url == pageUrl
    ensures !item.isFolder && !item.homePageBookmark
    ensures StoreCommand(item).InsertFavorite?
  {
    NewFavoriteItem().(title := pageTitle, url := pageUrl)
  }

  /** Position of the first item with the given row id, or -1. */
  function IndexOfId(items: seq<FavoriteItem>, id: int): (i: int)
    ensures -1 <= i < |items|
    ensures i == -1 <==> forall k :: 0 <= k < |items| ==> items[k].id != id
    ensures i >= 0 ==> items[i].id == id && forall k :: 0 <= k < i ==> items[k].id != id
  {
    if items == [] then -1
    else if items[0].id == id then 0
    else
      var j := IndexOfId(items[1..], id);
      assert forall k :: 1 <= k < |items| ==> items[1..][k - 1] == items[k];
      if j == -1 then -1 else j + 1
  }

  /** The list after `onItemEdited`: a new item, with the id storage gave
      it, goes first; an edited stored item shows its new contents where it
      was, and the order of the list does not change. */
  function EditedItems(items: seq<FavoriteItem>, item: FavoriteItem, newId: int): (r: seq<FavoriteItem>)
    ensures item.id == 0 ==> r == [item.(id := newId)] + items
    ensures item.id != 0 ==> |r| == |items| && forall k :: 0 <= k < |items| ==> r[k].id == items[k].id
    ensures item.id != 0 ==> forall k :: 0 <= k < |items| && items[k].id != item.id ==> r[k] == items[k]
    ensures item.id != 0 && IndexOfId(items, item.id) >= 0 ==> r[IndexOfId(items, item.id)] == item
    ensures item.id != 0 && IndexOfId(items, item.id) == -1 ==> r == items
    ensures item.id != 0 && item in items ==> item in r
  {
    if item.id == 0 then [item.(id := newId)] + items
    else
      var i := IndexOfId(items, item.id);
      if i == -1 then items
      else
        var r := items[i := item];
        assert r[i] == item;
        r
  }

  /** Deleting a just-added item gives the list back as it was. */
  lemma {:induction false} DeleteUndoesAdd(items: seq<FavoriteItem>, item: FavoriteItem, newId: int)
    requires item.id == 0
    ensures RemoveFirst(EditedItems(items, item, newId), item.(id := newId)) == items
  {
    var added := item.(id := newId);
    assert EditedItems(items, item, newId)[0] == added;
    assert IndexOf(EditedItems(items, item, newId), added) == 0;
  }

  /** Editing a stored item and then saving its old contents again gives the
      list back as it was. */
  lemma {:induction false} EditUndoesEdit(items: seq<FavoriteItem>, item: FavoriteItem, newId: int)
    requires item.id != 0 && IndexOfId(items, item.id) >= 0
    ensures var before := items[IndexOfId(items, item.id)];
            EditedItems(EditedItems(items, item, newId), before, newId) == items
  {
    var i := IndexOfId(items, item.id);
    var r := EditedItems(items, item, newId);
    SameIdsSameIndex(items, r, item.id);
    assert r[i := items[i]] == items;
  }

  /** Two lists with the same ids at every position find an id at the same place. */
  lemma {:induction false} SameIdsSameIndex(a: seq<FavoriteItem>, b: seq<FavoriteItem>, id: int)
    requires |a| == |b| && forall k :: 0 <= k < |a| ==> a[k].id == b[k].id
    ensures IndexOfId(a, id) == IndexOfId(b, id)
    decreases |a|
  {
    if a != [] && a[0].id != id {
      SameIdsSameIndex(a[1..], b[1..], id);
    }
  }

  class FavoritesDialog {
    const pageTitle: Option<string>
    const pageUrl: Option<string>
    var items: seq<FavoriteItem>
    var isEditMode: bool
    var loadingVisible: bool
    var listVisible: bool
    var placeholderVisible: bool
    /** The item handed to the caller, once one is chosen. */
    var chosen: Option<FavoriteItem>
    var dismissed: bool
    var commands: seq<FavoritesCommand>

    /** While loading neither the list nor the placeholder shows; after it,
        exactly one of them does: the list when there are items. */
    predicate Valid()
      reads this
    {
      (loadingVisible ==> !listVisible && !placeholderVisible)
      && (!loadingVisible ==> (listVisible <==> items != []) && (placeholderVisible <==> items == []))
    }

    constructor (pageTitle: Option<string>, pageUrl: Option<string>)
      ensures Valid()
      ensures this.pageTitle == pageTitle && this.pageUrl == pageUrl
      ensures items == [] && !isEditMode && loadingVisible && !listVisible && !placeholderVisible
      ensures chosen == None && !dismissed && commands == []
    {
      this.pageTitle := pageTitle;
      this.pageUrl := pageUrl;
      items := [];
      isEditMode := false;
      loadingVisible := true;
      listVisible := false;
      placeholderVisible := false;
      chosen := None;
      dismissed := false;
      commands := [];
    }

    /** `onItemsChanged`: loading ends; the list shows when there are items
        and the placeholder when there are none. */
    method OnItemsChanged()
      modifies this
      ensures Valid() && !loadingVisible
      ensures listVisible == (items != []) && placeholderVisible == (items == [])
      ensures items == old(items) && isEditMode == old(isEditMode) && chosen == old(chosen)
      ensures dismissed == old(dismissed) && commands == old(commands)
    {
      loadingVisible := false;
      listVisible := items != [];
      placeholderVisible := items == [];
    }

    /** The initial load: every stored item is appended. */
    method OnLoaded(all: seq<FavoriteItem>)
      modifies this
      ensures Valid() && !loadingVisible
      ensures items == old(items) + all
      ensures isEditMode == old(isEditMode) && chosen == old(chosen) && dismissed == old(dismissed)
      ensures commands == old(commands)
    {
      items := items + all;
      OnItemsChanged();
    }

    /** The edit button flips edit mode. */
    method ToggleEditMode()
      requires Valid()
      modifies this
      ensures Valid()
      ensures isEditMode == !old(isEditMode)
      ensures items == old(items) && loadingVisible == old(loadingVisible) && listVisible == old(listVisible)
      ensures placeholderVisible == old(placeholderVisible) && chosen == old(chosen)
      ensures dismissed == old(dismissed) && commands == old(commands)
    {
      isEditMode := !isEditMode;
    }

    /** Clicking an item: a folder does nothing; any other item is handed
        to the caller and the dialog closes. */
    method OnItemClick(i: nat)
      requires Valid() && i < |items|
      modifies this
      ensures Valid()
      ensures items == old(items) && isEditMode == old(isEditMode) && loadingVisible == old(loadingVisible)
      ensures items[i].isFolder ==> chosen == old(chosen) && dismissed == old(dismissed)
      ensures !items[i].isFolder ==> chosen == Some(items[i]) && dismissed
      ensures listVisible == old(listVisible) && placeholderVisible == old(placeholderVisible)
      ensures commands == old(commands)
    {
      var item := items[i];
      if !item.isFolder {
        chosen := Some(item);
        dismissed := true;
      }
    }

    /** `onItemEdited`: a new item is inserted and takes the row id storage
        returns (`newId`); a stored item is updated. Returns the item as the
        editor then holds it. */
    method OnItemEdited(item: FavoriteItem, newId: int) returns (stored: FavoriteItem)
      modifies this
      ensures Valid() && !loadingVisible
      ensures stored == if item.id == 0 then item.(id := newId) else item
      ensures commands == old(commands) + [StoreCommand(item)]
      ensures items == EditedItems(old(items), item, newId)
      ensures isEditMode == old(isEditMode) && chosen == old(chosen) && dismissed == old(dismissed)
    {
      loadingVisible := true;
      listVisible := false;
      placeholderVisible := false;
      commands := commands + [StoreCommand(item)];
      if item.id == 0 {
        stored := item.(id := newId);
        items := [stored] + items;
      } else {
        stored := item;
        var i := IndexOfId(items, item.id);
        if i != -1 {
          items := items[i := item];
        }
      }
      OnItemsChanged();
    }

    /** `onDeleteClick`: the item is deleted from storage and then from the
        list. */
    method OnDeleteClick(favorite: FavoriteItem)
      modifies this
      ensures Valid() && !loadingVisible
      ensures commands == old(commands) + [DeleteFavorite(favorite)]
      ensures items == RemoveFirst(old(items), favorite)
      ensures isEditMode == old(isEditMode) && chosen == old(chosen) && dismissed == old(dismissed)
    {
      commands := commands + [DeleteFavorite(favorite)];
      items := RemoveFirst(items, favorite);
      OnItemsChanged();
    }
  }
}
