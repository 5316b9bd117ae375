/** The pharmacy's inventory screen: search by name or SKU ignoring case, the
    category chips, and the low-stock alert. */
module InventoryScreen {
  import opened Common

  datatype InventoryItem = InventoryItem(
    id: string, name: string, sku: string, quantity: int, minQuantity: int,
    price: int, category: string, expiryDate: string)

  /** The search box test: the lower-cased query occurs in the lower-cased name or SKU. */
  predicate MatchesQuery(item: InventoryItem, query: string)
  {
    Includes(ToLower(item.name), ToLower(query)) || Includes(ToLower(item.sku), ToLower(query))
  }

  /** A category filter applies when one is chosen and it is not the empty string. */
  predicate CategoryActive(category: Option<string>)
  {
    category.Some? && category.value != ""
  }

  /** Whether the screen lists an item: an empty query shows everything, and an
      inactive category filter shows every category. */
  predicate Shown(item: InventoryItem, query: string, category: Option<string>)
  {
    && (query == "" || MatchesQuery(item, query))
    && (!CategoryActive(category) || item.category == category.value)
  }

  /** The tests of the two filter steps and of the combined filter, as values. */
  function QueryTest(query: string): InventoryItem -> bool
  {
    (x: InventoryItem) => MatchesQuery(x, query)
  }

  function CategoryTest(category: Option<string>): InventoryItem -> bool
  {
    (x: InventoryItem) => CategoryActive(category) && x.category == category.value
  }

  function ShownTest(query: string, category: Option<string>): InventoryItem -> bool
  {
    (x: InventoryItem) => Shown(x, query, category)
  }

  /** The list filterInventory publishes, stated in one pass. */
  function FilteredInventory(inventory: seq<InventoryItem>, query: string, category: Option<string>): (r: seq<InventoryItem>)
    ensures IsSubsequence(r, inventory)
    ensures forall i :: 0 <= i < |r| ==> Shown(r[i], query, category)
    ensures forall i :: 0 <= i < |inventory| && Shown(inventory[i], query, category) ==> inventory[i] in r
    ensures forall i :: 0 <= i < |inventory| ==>
      multiset(r)[inventory[i]] == if Shown(inventory[i], query, category) then multiset(inventory)[inventory[i]] else 0
  {
    FilterMultiplicity(inventory, ShownTest(query, category));
    Filter(inventory, ShownTest(query, category))
  }

  /** The two successive filter steps of filterInventory publish the one-pass list. */
  lemma FilterStepsAgree(inventory: seq<InventoryItem>, query: string, category: Option<string>)
    ensures var afterQuery := if query != "" then Filter(inventory, QueryTest(query)) else inventory;
      (if CategoryActive(category) then Filter(afterQuery, CategoryTest(category)) else afterQuery)
        == FilteredInventory(inventory, query, category)
  {
    var matches, inCategory, shown := QueryTest(query), CategoryTest(category), ShownTest(query, category);
    if query != "" && CategoryActive(category) {
      FilterBoth(inventory, matches, inCategory, shown);
    } else if query != "" {
      FilterSameTest(inventory, matches, shown);
    } else if CategoryActive(category) {
      FilterSameTest(inventory, inCategory, shown);
    } else {
      FilterKeepsAll(inventory, shown);
    }
  }

  /** With no query and no category the whole inventory is listed. */
  lemma NoFilterShowsAll(inventory: seq<InventoryItem>, category: Option<string>)
    requires !CategoryActive(category)
    ensures FilteredInventory(inventory, "", category) == inventory
  {
    FilterKeepsAll(inventory, ShownTest("", category));
  }

  /** Filtering the filtered list again with the same settings changes nothing. */
  lemma FilterAgainUnchanged(inventory: seq<InventoryItem>, query: string, category: Option<string>)
    ensures FilteredInventory(FilteredInventory(inventory, query, category), query, category)
         == FilteredInventory(inventory, query, category)
  {
    FilterIdempotent(inventory, ShownTest(query, category));
  }

  /** The `categories` chips: each category once, in order of first appearance. */
  function Categories(inventory: seq<InventoryItem>): (r: seq<string>)
    ensures forall i :: 0 <= i < |inventory| ==> inventory[i].category in r
    ensures forall i :: 0 <= i < |r| ==> exists k :: 0 <= k < |inventory| && inventory[k].category == r[i]
    ensures forall i, j :: 0 <= i < j < |r| ==> r[i] != r[j]
  {
    var cats := seq(|inventory|, i requires 0 <= i < |inventory| => inventory[i].category);
    var r := DistinctInOrder(cats);
    forall i | 0 <= i < |inventory| ensures inventory[i].category in r {
      assert cats[i] == inventory[i].category && cats[i] in cats;
    }
    assert forall i :: 0 <= i < |r| ==> r[i] in cats;
    r
  }

  /** The category chips appear in the order in which their first item appears. */
  lemma CategoriesInFirstAppearanceOrder(inventory: seq<InventoryItem>, i: nat, j: nat)
    requires i < j < |Categories(inventory)|
    ensures var cats := seq(|inventory|, k requires 0 <= k < |inventory| => inventory[k].category);
      IndexOf(cats, Categories(inventory)[i]).value < IndexOf(cats, Categories(inventory)[j]).value
  {
  }

  /** Array.from(new Set(s)): insertion order, duplicates skipped. */
  function DistinctInOrder(s: seq<string>): (r: seq<string>)
    ensures forall x :: x in r <==> x in s
    ensures forall i, j :: 0 <= i < j < |r| ==> r[i] != r[j]
    ensures forall i, j :: 0 <= i < j < |r| ==> IndexOf(s, r[i]).value < IndexOf(s, r[j]).value
    decreases |s|
  {
    if s == [] then []
    else
      var init := s[..|s| - 1];
      var x := s[|s| - 1];
      var d := DistinctInOrder(init);
      assert s == init + [x];
      IndexOfAppend(init, x);
      if x in d then d else d + [x]
  }

  /** Appending an element moves no first occurrence, and a new element is first
      found at the end. */
  lemma IndexOfAppend(init: seq<string>, x: string)
    ensures forall y :: y in init ==> IndexOf(init + [x], y) == IndexOf(init, y)
    ensures x !in init ==> IndexOf(init + [x], x) == Some(|init|)
  {
    var s := init + [x];
    forall y | y in init ensures IndexOf(s, y) == IndexOf(init, y) {
      IndexOfUnique(s, y, IndexOf(init, y).value);
    }
    if x !in init {
      IndexOfUnique(s, x, |init|);
    }
  }

  /** getLowStockItems: the items at or below their minimum quantity, in order. */
  function LowStockItems(inventory: seq<InventoryItem>): (r: seq<InventoryItem>)
    ensures IsSubsequence(r, inventory)
    ensures forall i :: 0 <= i < |r| ==> r[i].quantity <= r[i].minQuantity
    ensures forall i :: 0 <= i < |inventory| && inventory[i].quantity <= inventory[i].minQuantity ==> inventory[i] in r
    ensures forall i :: 0 <= i < |inventory| ==>
      multiset(r)[inventory[i]]
        == if inventory[i].quantity <= inventory[i].minQuantity then multiset(inventory)[inventory[i]] else 0
  {
    FilterMultiplicity(inventory, (x: InventoryItem) => x.quantity <= x.minQuantity);
    Filter(inventory, (x: InventoryItem) => x.quantity <= x.minQuantity)
  }

  /** The screen's state. `filteredInventory` is republished by filterInventory each
      time the inventory, the query or the category changes. */
  class InventoryView {
    var inventory: seq<InventoryItem>
    var filteredInventory: seq<InventoryItem>
    var searchQuery: string
    var filterCategory: Option<string>

    /** What the effect hook maintains. */
    predicate Valid()
      reads this
    {
      filteredInventory == FilteredInventory(inventory, searchQuery, filterCategory)
    }

    constructor (items: seq<InventoryItem>)
      ensures Valid()
      ensures inventory == items && searchQuery == "" && filterCategory == None
      ensures filteredInventory == items
    {
      inventory := items;
      searchQuery := "";
      filterCategory := None;
      filteredInventory := items;
      NoFilterShowsAll(items, None);
    }

    /** filterInventory: narrow by the query, then by the category, then publish. */
    method FilterInventory()
      modifies this`filteredInventory
      ensures Valid()
    {
      var filtered := inventory;
      if searchQuery != "" {
        filtered := Filter(filtered, QueryTest(searchQuery));
      }
      if CategoryActive(filterCategory) {
        filtered := Filter(filtered, CategoryTest(filterCategory));
      }
      FilterStepsAgree(inventory, searchQuery, filterCategory);
      filteredInventory := filtered;
    }

    method SetSearchQuery(query: string)
      modifies this`searchQuery, this`filteredInventory
      ensures searchQuery == query && Valid()
    {
      searchQuery := query;
      FilterInventory();
    }

    method SetFilterCategory(category: Option<string>)
      modifies this`filterCategory, this`filteredInventory
      ensures filterCategory == category && Valid()
    {
      filterCategory := category;
      FilterInventory();
    }

    method SetInventory(items: seq<InventoryItem>)
      modifies this`inventory, this`filteredInventory
      ensures inventory == items && Valid()
    {
      inventory := items;
      FilterInventory();
    }
  }
}
