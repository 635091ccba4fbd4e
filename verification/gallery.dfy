/**
 * The project gallery (js/gallery.js): category and search filtering of the
 * gallery items, the lightbox position, and adding and updating items.
 */
module Gallery {
  import opened Wrappers
  import Seqs
  import Text

  /**
   * A gallery item. `tags` is None for an item without a `tags` property,
   * which is how every entry of the shipped gallery data is written.
   */
  datatype Item = Item(id: int, title: string, description: string, category: string,
                       tags: Option<seq<string>>, year: string, status: string)

  /** The properties an `updates` object may carry; None leaves the property as it is. */
  datatype ItemUpdate = ItemUpdate(id: Option<int>, title: Option<string>, description: Option<string>,
                                   category: Option<string>, tags: Option<seq<string>>,
                                   year: Option<string>, status: Option<string>)

  /** `{ ...item, ...updates }` */
  function Merge(item: Item, u: ItemUpdate): (r: Item)
    ensures u.id.Some? ==> r.id == u.id.value
    ensures u.id.None? ==> r.id == item.id
    ensures u.title.Some? ==> r.title == u.title.value
    ensures u.title.None? ==> r.title == item.title
    ensures u.category.Some? ==> r.category == u.category.value
    ensures u.category.None? ==> r.category == item.category
    ensures u.tags.Some? ==> r.tags == u.tags
    ensures u.tags.None? ==> r.tags == item.tags
    ensures u.description.Some? ==> r.description == u.description.value
    ensures u.description.None? ==> r.description == item.description
    ensures u.year.Some? ==> r.year == u.year.value
    ensures u.year.None? ==> r.year == item.year
    ensures u.status.Some? ==> r.status == u.status.value
    ensures u.status.None? ==> r.status == item.status
  {
    Item(
      if u.id.Some? then u.id.value else item.id,
      if u.title.Some? then u.title.value else item.title,
      if u.description.Some? then u.description.value else item.description,
      if u.category.Some? then u.category.value else item.category,
      if u.tags.Some? then u.tags else item.tags,
      if u.year.Some? then u.year.value else item.year,
      if u.status.Some? then u.status.value else item.status)
  }

  /** An update that carries nothing leaves the item as it is. */
  lemma MergeEmpty(item: Item)
    ensures Merge(item, ItemUpdate(None, None, None, None, None, None, None)) == item
  {
  }

  /** Applying the same update twice is applying it once. */
  lemma MergeTwice(item: Item, u: ItemUpdate)
    ensures Merge(Merge(item, u), u) == Merge(item, u)
  {
  }

  predicate SomeTagContains(tags: seq<string>, term: string)
  {
    exists k :: 0 <= k < |tags| && Text.Contains(Text.Lower(tags[k]), term)
  }

  /**
   * `matchesSearch` for one item: Some(verdict), or None when the test reaches
   * `item.tags.some` on an item without tags, which throws a TypeError. The
   * stored search term is already lower-case and is used as it is.
   */
  function MatchesSearch(item: Item, term: string): (r: Option<bool>)
    ensures r.None? <==>
      (term != [] && !Text.Contains(Text.Lower(item.title), term)
       && !Text.Contains(Text.Lower(item.description), term) && item.tags.None?)
  {
    if term == [] || Text.Contains(Text.Lower(item.title), term) || Text.Contains(Text.Lower(item.description), term)
    then Some(true)
    else match item.tags
      case None => None
      case Some(tags) => Some(SomeTagContains(tags, term))
  }

  predicate MatchesCategory(item: Item, activeFilter: string)
  {
    activeFilter == "all" || item.category == activeFilter
  }

  /** An item survives `applyFilters` when it matches both the category and the search. */
  predicate Kept(item: Item, activeFilter: string, term: string)
  {
    MatchesCategory(item, activeFilter) && MatchesSearch(item, term) == Some(true)
  }

  function KeepTest(activeFilter: string, term: string): Item -> bool
  {
    (item: Item) => Kept(item, activeFilter, term)
  }

  /**
   * The `galleryItems.filter(...)` of `applyFilters`: None when the test throws
   * on some item (the search part is evaluated for every item, whatever its
   * category), otherwise the items kept, in gallery order.
   */
  function FilterItems(items: seq<Item>, activeFilter: string, term: string): (r: Option<seq<Item>>)
    ensures r.None? <==> exists i :: 0 <= i < |items| && MatchesSearch(items[i], term).None?
    ensures r.Some? ==> r.value == Seqs.Filter(items, KeepTest(activeFilter, term))
  {
    if items == [] then Some([])
    else
      match MatchesSearch(items[0], term)
      case None => None
      case Some(_) =>
        match FilterItems(items[1..], activeFilter, term)
        case None =>
          var i :| 0 <= i < |items[1..]| && MatchesSearch(items[1..][i], term).None?;
          assert MatchesSearch(items[i + 1], term).None?;
          None
        case Some(rest) =>
          assert forall i :: 1 <= i < |items| ==> items[i] == items[1..][i - 1];
          Some(if Kept(items[0], activeFilter, term) then [items[0]] + rest else rest)
  }

  /** The filtered items are exactly the gallery items that match, in gallery order. */
  lemma FilteredItemsSpec(items: seq<Item>, activeFilter: string, term: string)
    requires FilterItems(items, activeFilter, term).Some?
    ensures var r := FilterItems(items, activeFilter, term).value;
      Seqs.IsSubsequence(r, items)
      && (forall x :: x in r <==> x in items && Kept(x, activeFilter, term))
  {
    var r := FilterItems(items, activeFilter, term).value;
    forall x | x in r ensures Kept(x, activeFilter, term) {
      var i :| 0 <= i < |r| && r[i] == x;
      assert KeepTest(activeFilter, term)(r[i]);
    }
    forall x | x in items && Kept(x, activeFilter, term) ensures x in r {
      var i :| 0 <= i < |items| && items[i] == x;
      assert KeepTest(activeFilter, term)(items[i]);
    }
  }

  /** With no category and no search term every item is shown. */
  lemma NoFilterShowsAll(items: seq<Item>)
    ensures FilterItems(items, "all", "") == Some(items)
  {
    Seqs.FilterAll(items, KeepTest("all", ""));
  }

  /** Without a search term filtering never throws and keeps exactly the category. */
  lemma CategoryOnly(items: seq<Item>, activeFilter: string)
    ensures FilterItems(items, activeFilter, "").Some?
    ensures forall x :: x in FilterItems(items, activeFilter, "").value <==> x in items && MatchesCategory(x, activeFilter)
  {
    FilteredItemsSpec(items, activeFilter, "");
  }

  /** Filtering the filtered items again keeps them all. */
  lemma FilterAgainKeepsAll(items: seq<Item>, activeFilter: string, term: string)
    requires FilterItems(items, activeFilter, term).Some?
    ensures FilterItems(FilterItems(items, activeFilter, term).value, activeFilter, term)
         == FilterItems(items, activeFilter, term)
  {
    var r := FilterItems(items, activeFilter, term).value;
    Seqs.FilterIdempotent(items, KeepTest(activeFilter, term));
    assert forall i :: 0 <= i < |r| ==> MatchesSearch(r[i], term).Some? by {
      forall i | 0 <= i < |r| ensures MatchesSearch(r[i], term).Some? {
        assert KeepTest(activeFilter, term)(r[i]);
      }
    }
  }

  /**
   * The `GalleryManager` object: the full list, the list on display, the
   * lower-cased search term, the active category and the lightbox position.
   */
  class GalleryManager {
    var galleryItems: seq<Item>
    var filteredItems: seq<Item>
    var searchTerm: string
    var activeFilter: string
    var currentIndex: int

    /** The constructor followed by `loadGalleryData`: everything is shown. */
    constructor(data: seq<Item>)
      ensures galleryItems == data && filteredItems == data
      ensures searchTerm == "" && activeFilter == "all" && currentIndex == 0
    {
      galleryItems := data;
      filteredItems := data;
      searchTerm := "";
      activeFilter := "all";
      currentIndex := 0;
    }

    /**
     * `applyFilters`: recomputes the items on display; when the filter throws,
     * the display is left as it was and `ok` is false.
     */
    method ApplyFilters() returns (ok: bool)
      modifies this
      ensures ok <==> FilterItems(galleryItems, activeFilter, searchTerm).Some?
      ensures ok ==> filteredItems == FilterItems(galleryItems, activeFilter, searchTerm).value
      ensures !ok ==> filteredItems == old(filteredItems)
      ensures galleryItems == old(galleryItems) && searchTerm == old(searchTerm)
      ensures activeFilter == old(activeFilter) && currentIndex == old(currentIndex)
    {
      var r := FilterItems(galleryItems, activeFilter, searchTerm);
      ok := r.Some?;
      if ok {
        filteredItems := r.value;
      }
    }

    /** `setActiveFilter`: selects the category and refilters. */
    method SetActiveFilter(category: string) returns (ok: bool)
      modifies this
      ensures activeFilter == category
      ensures ok <==> FilterItems(galleryItems, category, searchTerm).Some?
      ensures ok ==> filteredItems == FilterItems(galleryItems, category, searchTerm).value
      ensures !ok ==> filteredItems == old(filteredItems)
      ensures galleryItems == old(galleryItems) && searchTerm == old(searchTerm) && currentIndex == old(currentIndex)
    {
      activeFilter := category;
      ok := ApplyFilters();
    }

    /** `handleSearch`: stores the lower-cased term and refilters. */
    method HandleSearch(term: string) returns (ok: bool)
      modifies this
      ensures searchTerm == Text.Lower(term)
      ensures ok <==> FilterItems(galleryItems, activeFilter, searchTerm).Some?
      ensures ok ==> filteredItems == FilterItems(galleryItems, activeFilter, searchTerm).value
      ensures !ok ==> filteredItems == old(filteredItems)
      ensures galleryItems == old(galleryItems) && activeFilter == old(activeFilter) && currentIndex == old(currentIndex)
    {
      searchTerm := Text.Lower(term);
      ok := ApplyFilters();
    }

    /** `resetFilters`: back to every category and no search, so every item is shown. */
    method ResetFilters()
      modifies this
      ensures activeFilter == "all" && searchTerm == ""
      ensures filteredItems == galleryItems
      ensures galleryItems == old(galleryItems) && currentIndex == old(currentIndex)
    {
      activeFilter := "all";
      searchTerm := "";
      NoFilterShowsAll(galleryItems);
      var ok := ApplyFilters();
    }

    /** `openLightbox`: the lightbox shows the item at `index` of the display. */
    method OpenLightbox(index: int)
      modifies this
      ensures currentIndex == index
      ensures galleryItems == old(galleryItems) && filteredItems == old(filteredItems)
      ensures searchTerm == old(searchTerm) && activeFilter == old(activeFilter)
    {
      currentIndex := index;
    }

    /** `navigateLightbox`: moves by `direction` only when the new position shows an item. */
    method NavigateLightbox(direction: int)
      modifies this
      ensures 0 <= old(currentIndex) + direction < |filteredItems| ==> currentIndex == old(currentIndex) + direction
      ensures !(0 <= old(currentIndex) + direction < |filteredItems|) ==> currentIndex == old(currentIndex)
      ensures 0 <= old(currentIndex) < |filteredItems| ==> 0 <= currentIndex < |filteredItems|
      ensures galleryItems == old(galleryItems) && filteredItems == old(filteredItems)
      ensures searchTerm == old(searchTerm) && activeFilter == old(activeFilter)
    {
      var newIndex := currentIndex + direction;
      if 0 <= newIndex < |filteredItems| {
        currentIndex := newIndex;
      }
    }

    /**
     * `addGalleryItem`: numbers the item one past the current length, appends
     * it and refilters (the item stays added even when the refilter throws).
     */
    method AddGalleryItem(item: Item) returns (added: Item, ok: bool)
      modifies this
      ensures added == item.(id := |old(galleryItems)| + 1)
      ensures galleryItems == old(galleryItems) + [added]
      ensures ok <==> FilterItems(galleryItems, activeFilter, searchTerm).Some?
      ensures ok ==> filteredItems == FilterItems(galleryItems, activeFilter, searchTerm).value
      ensures !ok ==> filteredItems == old(filteredItems)
      ensures searchTerm == old(searchTerm) && activeFilter == old(activeFilter) && currentIndex == old(currentIndex)
    {
      added := item.(id := |galleryItems| + 1);
      galleryItems := galleryItems + [added];
      ok := ApplyFilters();
    }

    /**
     * `updateGalleryItem`: merges the updates into the first item with that id
     * and refilters; every other item is unchanged. An unknown id changes
     * nothing at all.
     */
    method UpdateGalleryItem(id: int, updates: ItemUpdate) returns (found: bool, ok: bool)
      modifies this
      ensures found <==> exists i :: 0 <= i < |old(galleryItems)| && old(galleryItems)[i].id == id
      ensures !found ==> galleryItems == old(galleryItems) && filteredItems == old(filteredItems) && ok
      ensures found ==> exists i :: (0 <= i < |old(galleryItems)| && old(galleryItems)[i].id == id
                                     && (forall j :: 0 <= j < i ==> old(galleryItems)[j].id != id)
                                     && galleryItems == old(galleryItems)[i := Merge(old(galleryItems)[i], updates)])
      ensures found ==> (ok <==> FilterItems(galleryItems, activeFilter, searchTerm).Some?)
      ensures found && ok ==> filteredItems == FilterItems(galleryItems, activeFilter, searchTerm).value
      ensures found && !ok ==> filteredItems == old(filteredItems)
      ensures |galleryItems| == |old(galleryItems)|
      ensures searchTerm == old(searchTerm) && activeFilter == old(activeFilter) && currentIndex == old(currentIndex)
    {
      var itemIndex := Seqs.FindIndex(galleryItems, (item: Item) => item.id == id);
      if itemIndex.None? {
        return false, true;
      }
      var i := itemIndex.value;
      galleryItems := galleryItems[i := Merge(galleryItems[i], updates)];
      found := true;
      ok := ApplyFilters();
    }
  }
}
