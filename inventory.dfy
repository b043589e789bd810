/**
 * The inventory page of src/components/Inventory.jsx: an in-memory list of
 * stock items that starts with six items and grows by appending one item
 * per submitted form. The page shows the list filtered by a text search
 * and a category, the category choices, counts by stock status, and marks
 * items whose expiry date is within 90 days.
 */
module Inventory {
  import opened Wrappers
  import JsText
  import JsNumber
  import Lists

  /** A stock item; quantity and reorder level are `None` where parseInt gave NaN. */
  datatype Item = Item(
    id: string, itemName: string, category: string, quantity: Option<int>, unit: string,
    reorderLevel: Option<int>, status: string, supplier: string, lastRestocked: string,
    expiryDate: string, batchNumber: string)

  /** The add-item form: every field is the text typed into it. */
  datatype ItemForm = ItemForm(
    itemName: string, category: string, quantity: string, unit: string, reorderLevel: string,
    supplier: string, expiryDate: string, batchNumber: string)

  /** The six items the page starts with. */
  const InitialItems: seq<Item> := [
    Item("INV001", "Blood Collection Tubes (EDTA)", "Consumables", Some(45), "boxes", Some(50), "low",
         "MedSupply Co.", "2026-01-05", "2026-12-31", "BCT2024-001"),
    Item("INV002", "Reagent Kit - CBC", "Reagents", Some(12), "kits", Some(20), "critical",
         "BioLab Solutions", "2026-01-02", "2026-06-30", "RGT-CBC-2024"),
    Item("INV003", "Glucose Test Strips", "Consumables", Some(78), "vials", Some(60), "adequate",
         "DiagnoTech", "2026-01-08", "2027-01-31", "GTS-2024-045"),
    Item("INV004", "Centrifuge Machine", "Equipment", Some(3), "units", Some(1), "adequate",
         "LabEquip Inc.", "2025-11-15", "N/A", "CFG-2025-X"),
    Item("INV005", "Reagent Kit - Lipid Profile", "Reagents", Some(25), "kits", Some(15), "adequate",
         "BioLab Solutions", "2026-01-07", "2026-08-31", "RGT-LIP-2024"),
    Item("INV006", "Pipette Tips (1000μL)", "Consumables", Some(150), "packs", Some(100), "adequate",
         "LabGear Pro", "2026-01-06", "N/A", "PT-1000-2024")
  ]

  // ---------------------------------------------------------------------
  // Item ids
  // ---------------------------------------------------------------------

  /** `INV${String(n).padStart(3, '0')}`. */
  function ItemId(n: nat): (id: string)
    ensures |id| >= 6 && id[0] == 'I' && id[1] == 'N' && id[2] == 'V'
  {
    "INV" + JsNumber.PadZeros(JsNumber.NatToString(n), 3)
  }

  /** Different numbers give different ids: the digits after "INV" read back as the number. */
  lemma ItemIdInjective(m: nat, n: nat)
    ensures m != n ==> ItemId(m) != ItemId(n)
  {
    JsNumber.NatToStringDigits(m);
    JsNumber.NatToStringDigits(n);
    JsNumber.PadZerosDigits(JsNumber.NatToString(m), 3);
    JsNumber.PadZerosDigits(JsNumber.NatToString(n), 3);
    if ItemId(m) == ItemId(n) {
      assert ItemId(m)[3..] == JsNumber.PadZeros(JsNumber.NatToString(m), 3);
      assert ItemId(n)[3..] == JsNumber.PadZeros(JsNumber.NatToString(n), 3);
    }
  }

  /** Item k of the list (from 0) carries the id numbered k + 1. */
  predicate IdsNumbered(items: seq<Item>) {
    forall i :: 0 <= i < |items| ==> items[i].id == ItemId(i + 1)
  }

  /** Numbered ids are pairwise distinct. */
  lemma IdsDistinct(items: seq<Item>)
    requires IdsNumbered(items)
    ensures forall i, j :: 0 <= i < j < |items| ==> items[i].id != items[j].id
  {
    forall i, j | 0 <= i < j < |items| ensures items[i].id != items[j].id {
      assert items[i].id == ItemId(i + 1) && items[j].id == ItemId(j + 1);
      ItemIdInjective(i + 1, j + 1);
    }
  }

  /** Appending the item numbered after the last keeps the ids numbered by position. */
  lemma NumberedAppend(items: seq<Item>, item: Item)
    requires IdsNumbered(items) && item.id == ItemId(|items| + 1)
    ensures IdsNumbered(items + [item])
  {
    var after := items + [item];
    forall i | 0 <= i < |after| ensures after[i].id == ItemId(i + 1) {
      if i < |items| {
        assert after[i] == items[i];
      }
    }
  }

  /** A one-digit number gets two leading zeros. */
  lemma ItemIdOneDigit(n: nat)
    requires n < 10
    ensures ItemId(n) == ['I', 'N', 'V', '0', '0', '0' + n as char]
  {
    var c := '0' + n as char;
    assert JsNumber.NatToString(n) == [c];
    var padded := JsNumber.PadZeros([c], 3);
    assert padded[0] == '0' && padded[1] == '0' && padded[2..] == [c];
  }

  /** The starting items carry INV001 to INV006 in order. */
  lemma InitialIdsNumbered()
    ensures IdsNumbered(InitialItems)
  {
    var items := InitialItems;
    forall i | 0 <= i < |items| ensures items[i].id == ItemId(i + 1) {
      ItemIdOneDigit(i + 1);
    }
  }

  // ---------------------------------------------------------------------
  // The item list
  // ---------------------------------------------------------------------

  /**
   * The item `handleSubmit` builds from the form when the list holds
   * `count` items: the next id, the form's fields, the two numbers parsed,
   * status 'adequate' whatever the quantity, and restocked today.
   */
  function NewItem(form: ItemForm, count: nat, today: string): (item: Item)
    ensures item.id == ItemId(count + 1)
    ensures item.status == "adequate" && item.lastRestocked == today
    ensures item.quantity == JsNumber.ParseInt(form.quantity) && item.reorderLevel == JsNumber.ParseInt(form.reorderLevel)
    ensures item.itemName == form.itemName && item.category == form.category && item.unit == form.unit
    ensures item.supplier == form.supplier && item.expiryDate == form.expiryDate && item.batchNumber == form.batchNumber
  {
    Item(ItemId(count + 1), form.itemName, form.category, JsNumber.ParseInt(form.quantity), form.unit,
         JsNumber.ParseInt(form.reorderLevel), "adequate", form.supplier, today, form.expiryDate, form.batchNumber)
  }

  class InventoryList {
    var items: seq<Item>

    /** Ids are numbered by position, so no two items share one. */
    ghost predicate Valid()
      reads this
    {
      IdsNumbered(items)
    }

    constructor()
      ensures items == InitialItems && Valid()
    {
      items := InitialItems;
      InitialIdsNumbered();
    }

    /** `handleSubmit`: the new item is appended and every earlier item is kept. */
    method Submit(form: ItemForm, today: string)
      requires Valid()
      modifies this
      ensures Valid()
      ensures items == old(items) + [NewItem(form, |old(items)|, today)]
    {
      var item := NewItem(form, |items|, today);
      NumberedAppend(items, item);
      items := items + [item];
    }
  }

  // ---------------------------------------------------------------------
  // Filtering and categories
  // ---------------------------------------------------------------------

  /** The case-insensitive search of name, id and supplier. */
  predicate MatchesSearch(item: Item, search: string) {
    var q := JsText.Lower(search);
    JsText.Contains(JsText.Lower(item.itemName), q) ||
    JsText.Contains(JsText.Lower(item.id), q) ||
    JsText.Contains(JsText.Lower(item.supplier), q)
  }

  predicate MatchesCategory(item: Item, category: string) {
    category == "all" || item.category == category
  }

  /** The item matches both the search and the category. */
  function Shown(search: string, category: string): Item -> bool {
    (item: Item) => MatchesSearch(item, search) && MatchesCategory(item, category)
  }

  /** `filteredInventory`: the items that match both the search and the category, in list order. */
  function FilterItems(items: seq<Item>, search: string, category: string): (r: seq<Item>)
    ensures forall i :: 0 <= i < |r| ==> r[i] in items && MatchesSearch(r[i], search) && MatchesCategory(r[i], category)
    ensures forall i :: 0 <= i < |items| && MatchesSearch(items[i], search) && MatchesCategory(items[i], category) ==> items[i] in r
    ensures |r| <= |items|
  {
    Lists.Filter(items, Shown(search, category))
  }

  /**
   * The shown items keep list order and multiplicity: the items of a first
   * part of the list come before those of the rest, a single item is shown
   * exactly when it matches, and a shown item appears as often as in the list.
   */
  lemma FilterItemsOrder(a: seq<Item>, b: seq<Item>, search: string, category: string, x: Item)
    ensures FilterItems(a + b, search, category) == FilterItems(a, search, category) + FilterItems(b, search, category)
    ensures FilterItems([x], search, category) == if MatchesSearch(x, search) && MatchesCategory(x, category) then [x] else []
    ensures multiset(FilterItems(a, search, category))[x] ==
            if MatchesSearch(x, search) && MatchesCategory(x, category) then multiset(a)[x] else 0
  {
    Lists.FilterAppend(a, b, Shown(search, category));
    Lists.FilterOne(x, Shown(search, category));
    Lists.FilterMultiplicity(a, Shown(search, category), x);
  }

  /** An empty search with category 'all' shows every item, in order. */
  lemma EmptySearchShowsAll(items: seq<Item>)
    ensures FilterItems(items, "", "all") == items
  {
    assert JsText.Lower("") == "";
    forall i | 0 <= i < |items| ensures Shown("", "all")(items[i]) {
      JsText.ContainsEmpty(JsText.Lower(items[i].itemName));
    }
    Lists.FilterKeepsAll(items, Shown("", "all"));
  }

  /** `new Set(values)` read back in insertion order: each value once, where it first occurs. */
  function Dedup(values: seq<string>): (r: seq<string>)
    ensures forall i, j :: 0 <= i < j < |r| ==> r[i] != r[j]
    ensures forall x :: x in r <==> x in values
  {
    if values == [] then []
    else
      var d := Dedup(values[..|values| - 1]);
      var x := values[|values| - 1];
      assert forall y :: y in values <==> y in values[..|values| - 1] || y == x by {
        assert values == values[..|values| - 1] + [x];
      }
      if x in d then d else d + [x]
  }

  /** Some occurrence of `a` in `values` comes before every occurrence of `b`. */
  ghost predicate OccursBefore(values: seq<string>, a: string, b: string) {
    exists p :: 0 <= p < |values| && values[p] == a && b !in values[..p + 1]
  }

  /** Dedup keeps first-occurrence order: each value first occurs before any later value of the result does. */
  lemma {:induction false} DedupFirstOccurrence(values: seq<string>)
    ensures forall i, j :: 0 <= i < j < |Dedup(values)| ==> OccursBefore(values, Dedup(values)[i], Dedup(values)[j])
  {
    if values == [] {
      assert Dedup(values) == [];
    } else {
      var init := values[..|values| - 1];
      var x := values[|values| - 1];
      var d := Dedup(init);
      DedupFirstOccurrence(init);
      var r := Dedup(values);
      forall i, j | 0 <= i < j < |r| ensures OccursBefore(values, r[i], r[j]) {
        assert r[i] == d[i];
        if j < |d| {
          assert r[j] == d[j];
          assert OccursBefore(init, d[i], d[j]);
          var p :| 0 <= p < |init| && init[p] == d[i] && d[j] !in init[..p + 1];
          assert values[..p + 1] == init[..p + 1];
          assert values[p] == r[i] && r[j] !in values[..p + 1];
        } else {
          assert r[j] == x && x !in d;
          assert d[i] in d && d[i] in init;
          var p :| 0 <= p < |init| && init[p] == d[i];
          assert x !in init;
          assert values[..p + 1] == init[..p + 1];
          assert values[p] == r[i] && r[j] !in values[..p + 1];
        }
      }
    }
  }

  /** `items.map(item => item.category)`. */
  function CategoryColumn(items: seq<Item>): (cats: seq<string>)
    ensures |cats| == |items|
    ensures forall i :: 0 <= i < |items| ==> cats[i] == items[i].category
  {
    seq(|items|, i requires 0 <= i < |items| => items[i].category)
  }

  /** `['all', ...new Set(items.map(item => item.category))]`. */
  function Categories(items: seq<Item>): (r: seq<string>)
    ensures |r| >= 1 && r[0] == "all"
    ensures forall i :: 0 <= i < |items| ==> items[i].category in r[1..]
    ensures forall i :: 1 <= i < |r| ==> exists j :: 0 <= j < |items| && items[j].category == r[i]
    ensures forall i, j :: 1 <= i < j < |r| ==> r[i] != r[j]
  {
    var cats := CategoryColumn(items);
    var d := Dedup(cats);
    forall i | 0 <= i < |d| ensures exists j :: 0 <= j < |items| && items[j].category == d[i] {
      assert d[i] in cats;
      var j :| 0 <= j < |cats| && cats[j] == d[i];
      assert items[j].category == d[i];
    }
    ["all"] + d
  }

  /**
   * After 'all', the categories come in the order of their first occurrence
   * in the list: the first item of an earlier category precedes every item
   * of a later one.
   */
  lemma CategoriesFirstOccurrence(items: seq<Item>)
    ensures forall i, j :: 1 <= i < j < |Categories(items)| ==>
              exists p :: 0 <= p < |items| && items[p].category == Categories(items)[i] &&
                          forall q :: 0 <= q <= p ==> items[q].category != Categories(items)[j]
  {
    var cats := CategoryColumn(items);
    var r := Categories(items);
    assert r[1..] == Dedup(cats);
    DedupFirstOccurrence(cats);
    forall i, j | 1 <= i < j < |r|
      ensures exists p :: 0 <= p < |items| && items[p].category == r[i] &&
                          forall q :: 0 <= q <= p ==> items[q].category != r[j]
    {
      assert OccursBefore(cats, Dedup(cats)[i - 1], Dedup(cats)[j - 1]);
      var p :| 0 <= p < |cats| && cats[p] == r[i] && r[j] !in cats[..p + 1];
      forall q | 0 <= q <= p ensures items[q].category != r[j] {
        assert cats[..p + 1][q] == items[q].category;
      }
    }
  }

  /** Choosing any listed category other than 'all' shows exactly items of that category. */
  lemma CategoryFilterExact(items: seq<Item>, search: string, category: string)
    requires category != "all"
    ensures forall item :: item in FilterItems(items, search, category) ==> item.category == category
  {
  }

  // ---------------------------------------------------------------------
  // Counts
  // ---------------------------------------------------------------------

  /** `i => i.status === status`. */
  function WithStatus(status: string): Item -> bool {
    (item: Item) => item.status == status
  }

  /** Three different statuses never count more items between them than the list holds. */
  lemma {:induction false} ThreeStatusesBounded(items: seq<Item>, a: string, b: string, c: string)
    requires a != b && b != c && a != c
    ensures Lists.Count(items, WithStatus(a)) + Lists.Count(items, WithStatus(b)) + Lists.Count(items, WithStatus(c)) <= |items|
  {
    if items != [] {
      ThreeStatusesBounded(items[1..], a, b, c);
    }
  }

  datatype Stats = Stats(total: nat, critical: nat, low: nat, adequate: nat)

  /** The stock counts the page shows: the number of items with each status. */
  function GetStats(items: seq<Item>): (s: Stats)
    ensures s.total == |items|
    ensures s.critical == Lists.Count(items, WithStatus("critical")) && s.low == Lists.Count(items, WithStatus("low"))
    ensures s.adequate == Lists.Count(items, WithStatus("adequate"))
    ensures s.critical + s.low + s.adequate <= s.total
  {
    var critical, low, adequate := "critical", "low", "adequate";
    assert critical[0] != adequate[0] && |low| != |critical| && |low| != |adequate|;
    ThreeStatusesBounded(items, critical, low, adequate);
    Stats(|items|, Lists.Count(items, WithStatus(critical)), Lists.Count(items, WithStatus(low)),
          Lists.Count(items, WithStatus(adequate)))
  }

  /** Submitting an item adds one to the adequate count and leaves every other status count as it was. */
  lemma SubmitCountsAdequate(items: seq<Item>, form: ItemForm, today: string, status: string)
    ensures var after := items + [NewItem(form, |items|, today)];
            Lists.Count(after, WithStatus(status)) ==
            Lists.Count(items, WithStatus(status)) + (if status == "adequate" then 1 else 0)
  {
    var item := NewItem(form, |items|, today);
    Lists.CountAppend(items, [item], WithStatus(status));
    assert Lists.Count([item], WithStatus(status)) == Lists.Count([item][1..], WithStatus(status)) + (if status == "adequate" then 1 else 0);
  }

  // ---------------------------------------------------------------------
  // Expiry
  // ---------------------------------------------------------------------

  /** Ninety days in milliseconds. */
  const NinetyDays: int := 90 * 24 * 60 * 60 * 1000

  /**
   * The expiring-soon mark: never for 'N/A'; otherwise the expiry date is
   * before now plus 90 days. `parseDate` stands for `new Date(...)` and
   * answers `None` for an invalid date, which compares false.
   */
  function ExpiringSoon(expiry: string, parseDate: string -> Option<int>, now: int): (r: bool)
    ensures expiry == "N/A" ==> !r
    ensures expiry != "N/A" ==> (r <==> parseDate(expiry).Some? && parseDate(expiry).value < now + NinetyDays)
  {
    expiry != "N/A" && match parseDate(expiry) case Some(t) => t < now + NinetyDays case None => false
  }

  /** An item marked at one moment stays marked later on. */
  lemma ExpiringSoonStays(expiry: string, parseDate: string -> Option<int>, now: int, later: int)
    requires now <= later
    ensures ExpiringSoon(expiry, parseDate, now) ==> ExpiringSoon(expiry, parseDate, later)
  {
  }
}
