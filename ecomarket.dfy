/** The EcoMarket page: a catalog of products made by self-help groups, filtered by a search
    term and a category and then sorted by price on a fresh copy. */
module EcoMarket {
  import opened Wrappers
  import opened Seqs
  import opened Text

  /** `Product`, without the display-only image fields. */
  datatype Product = Product(
    id: string,
    name: string,
    description: string,
    price: real,
    shgName: string,
    category: string)

  /** `initialProducts`, in page order. */
  const InitialProducts: seq<Product> := [
    Product("1", "Upcycled Denim Tote Bag",
            "Stylish and durable tote bag made from recycled denim jeans.",
            25.0, "GreenStitch Collective", "Fashion"),
    Product("2", "Recycled Paper Journals",
            "Set of 3 eco-friendly journals with covers made from recycled paper.",
            15.0, "PaperMakers United", "Stationery"),
    Product("3", "Glass Bottle Wind Chimes",
            "Beautiful wind chimes crafted from colorful recycled glass bottles.",
            30.0, "SoundWeavers SHG", "Home Decor"),
    Product("4", "Plastic Waste Coasters (Set of 4)",
            "Unique coasters made from melted and molded plastic waste.",
            12.0, "ReForm Artisans", "Kitchen"),
    Product("5", "Tire Planter Pot",
            "Rugged and creative planter pot made from a recycled tire.",
            40.0, "SecondLife Gardens", "Garden"),
    Product("6", "Newspaper Woven Basket",
            "Handwoven decorative basket made from rolled newspaper strips.",
            20.0, "EcoWeave SHG", "Home Decor")
  ]

  /** The category drop-down; "All" switches the category filter off. */
  const AllCategories: string := "All"

  /** The sort drop-down's values; any other value leaves the filtered order alone. */
  const DefaultOrder: string := "default"
  const PriceAscending: string := "price_asc"
  const PriceDescending: string := "price_desc"

  // ---------------------------------------------------------------------------
  // Filtering
  // ---------------------------------------------------------------------------

  /** Case-insensitive search on the name or the description. */
  predicate MatchesSearch(p: Product, term: string)
  {
    Contains(ToLower(p.name), ToLower(term)) || Contains(ToLower(p.description), ToLower(term))
  }

  function SearchFilter(term: string): Product -> bool
  {
    (p: Product) => MatchesSearch(p, term)
  }

  function CategoryFilter(category: string): Product -> bool
  {
    (p: Product) => p.category == category
  }

  /** Both filters as one test: an empty term and the category "All" switch a filter off. */
  predicate Passes(p: Product, term: string, category: string)
  {
    (term == "" || MatchesSearch(p, term)) && (category == AllCategories || p.category == category)
  }

  function PassesFilter(term: string, category: string): Product -> bool
  {
    (p: Product) => Passes(p, term, category)
  }

  /** The filter chain as the effect runs it: always from the full catalog, search first,
      then category. */
  function Filtered(catalog: seq<Product>, term: string, category: string): seq<Product>
  {
    var searched := if term != "" then Filter(catalog, SearchFilter(term)) else catalog;
    if category != AllCategories then Filter(searched, CategoryFilter(category)) else searched
  }

  /** The filtered list is exactly the catalog products that pass both filters, in catalog order. */
  lemma FilteredIsOneFilter(catalog: seq<Product>, term: string, category: string)
    ensures Filtered(catalog, term, category) == Filter(catalog, PassesFilter(term, category))
  {
    var both := PassesFilter(term, category);
    if term == "" && category == AllCategories {
      FilterKeepsAll(catalog, both);
    } else if term == "" {
      FilterSamePredicate(catalog, CategoryFilter(category), both);
    } else if category == AllCategories {
      FilterSamePredicate(catalog, SearchFilter(term), both);
    } else {
      FilterThenFilter(catalog, SearchFilter(term), CategoryFilter(category), both);
    }
  }

  /** A product is listed iff it is in the catalog, matches a non-empty term and has the chosen
      category (unless "All"). */
  lemma FilteredMembership(catalog: seq<Product>, term: string, category: string, p: Product)
    ensures p in Filtered(catalog, term, category) <==>
            p in catalog && (term == "" || MatchesSearch(p, term)) &&
            (category == AllCategories || p.category == category)
  {
    FilteredIsOneFilter(catalog, term, category);
    FilterMembership(catalog, PassesFilter(term, category), p);
  }

  /** With no term and "All", the whole catalog is listed, in catalog order. */
  lemma FilteredWithoutFilters(catalog: seq<Product>)
    ensures Filtered(catalog, "", AllCategories) == catalog
  {
  }

  // ---------------------------------------------------------------------------
  // Sorting by price
  // ---------------------------------------------------------------------------

  datatype Direction = Ascending | Descending

  /** The direction a sort-order value asks for, if any. */
  function DirectionOf(order: string): Option<Direction>
  {
    if order == PriceAscending then Some(Ascending)
    else if order == PriceDescending then Some(Descending)
    else None
  }

  /** The sort key: price ascending, negated price descending. */
  function Key(dir: Direction, p: Product): real
  {
    if dir == Ascending then p.price else -p.price
  }

  /** The comparator handed to `sort`: `a.price - b.price` ascending, `b.price - a.price`
      descending. It puts `a` first exactly when `a`'s key is smaller, and calls two products
      tied exactly when their prices are equal. */
  function Comparator(dir: Direction, a: Product, b: Product): (c: real)
    ensures c < 0.0 <==> Key(dir, a) < Key(dir, b)
    ensures c > 0.0 <==> Key(dir, b) < Key(dir, a)
    ensures c == 0.0 <==> a.price == b.price
  {
    if dir == Ascending then a.price - b.price else b.price - a.price
  }

  predicate SortedBy(dir: Direction, s: seq<Product>)
  {
    forall i, j :: 0 <= i < j < |s| ==> Key(dir, s[i]) <= Key(dir, s[j])
  }

  /** Ordered by the key is ordered by the comparator: no pair is out of order. */
  lemma SortedByComparator(dir: Direction, s: seq<Product>)
    ensures SortedBy(dir, s) <==> forall i, j :: 0 <= i < j < |s| ==> Comparator(dir, s[i], s[j]) <= 0.0
  {
    if !SortedBy(dir, s) {
      var i, j :| 0 <= i < j < |s| && Key(dir, s[i]) > Key(dir, s[j]);
      assert Comparator(dir, s[i], s[j]) > 0.0;
    }
  }

  /** Insert `x` into `s`, after every element whose key is not greater than its own. */
  function Insert(dir: Direction, s: seq<Product>, x: Product): (r: seq<Product>)
    ensures |r| == |s| + 1
  {
    if s == [] then [x]
    else if Key(dir, s[|s| - 1]) <= Key(dir, x) then s + [x]
    else Insert(dir, s[..|s| - 1], x) + [s[|s| - 1]]
  }

  /** A stable sort by price: insertion of each element in turn, as the in-place method does. */
  function SortByPrice(dir: Direction, s: seq<Product>): (r: seq<Product>)
    ensures |r| == |s|
  {
    if s == [] then [] else Insert(dir, SortByPrice(dir, s[..|s| - 1]), s[|s| - 1])
  }

  /** Inserting adds exactly `x`. */
  lemma {:induction false} InsertPermutes(dir: Direction, s: seq<Product>, x: Product)
    ensures multiset(Insert(dir, s, x)) == multiset(s) + multiset{x}
  {
    if s != [] && Key(dir, s[|s| - 1]) > Key(dir, x) {
      assert s == s[..|s| - 1] + [s[|s| - 1]];
      InsertPermutes(dir, s[..|s| - 1], x);
    }
  }

  /** The sort is a permutation of its input. */
  lemma {:induction false} SortByPricePermutes(dir: Direction, s: seq<Product>)
    ensures multiset(SortByPrice(dir, s)) == multiset(s)
  {
    if s != [] {
      assert s == s[..|s| - 1] + [s[|s| - 1]];
      SortByPricePermutes(dir, s[..|s| - 1]);
      InsertPermutes(dir, SortByPrice(dir, s[..|s| - 1]), s[|s| - 1]);
    }
  }

  lemma {:induction false} InsertSorted(dir: Direction, s: seq<Product>, x: Product)
    requires SortedBy(dir, s)
    ensures SortedBy(dir, Insert(dir, s, x))
  {
    if s != [] && Key(dir, s[|s| - 1]) > Key(dir, x) {
      var init, last := s[..|s| - 1], s[|s| - 1];
      var r' := Insert(dir, init, x);
      InsertSorted(dir, init, x);
      InsertPermutes(dir, init, x);
      forall i | 0 <= i < |r'|
        ensures Key(dir, r'[i]) <= Key(dir, last)
      {
        assert r'[i] in multiset(r');
        if r'[i] != x {
          assert r'[i] in multiset(init);
        }
      }
    }
  }

  /** The sort's result is ordered by the key. */
  lemma {:induction false} SortByPriceSorted(dir: Direction, s: seq<Product>)
    ensures SortedBy(dir, SortByPrice(dir, s))
  {
    if s != [] {
      SortByPriceSorted(dir, s[..|s| - 1]);
      InsertSorted(dir, SortByPrice(dir, s[..|s| - 1]), s[|s| - 1]);
    }
  }

  /** The products with a given price. */
  function PricedAt(price: real): Product -> bool
  {
    (p: Product) => p.price == price
  }

  /** Inserting `x` puts it after every product of the same price. */
  lemma {:induction false} InsertStable(dir: Direction, s: seq<Product>, x: Product, price: real)
    ensures Filter(Insert(dir, s, x), PricedAt(price))
         == Filter(s, PricedAt(price)) + (if x.price == price then [x] else [])
  {
    var eq := PricedAt(price);
    var tail := if x.price == price then [x] else [];
    if s == [] {
    } else if Key(dir, s[|s| - 1]) <= Key(dir, x) {
      FilterSnoc(s, x, eq);
    } else {
      var init, last := s[..|s| - 1], s[|s| - 1];
      assert s == init + [last];
      assert x.price != last.price;
      InsertStable(dir, init, x, price);
      FilterSnoc(Insert(dir, init, x), last, eq);
      FilterSnoc(init, last, eq);
      if eq(last) {
        assert tail == [];
      }
    }
  }

  /** Stability: for every price, the products of that price appear in the sorted list in the
      same relative order as in the input. */
  lemma {:induction false} SortByPriceStable(dir: Direction, s: seq<Product>, price: real)
    ensures Filter(SortByPrice(dir, s), PricedAt(price)) == Filter(s, PricedAt(price))
  {
    if s != [] {
      var init, last := s[..|s| - 1], s[|s| - 1];
      assert s == init + [last];
      SortByPriceStable(dir, init, price);
      InsertStable(dir, SortByPrice(dir, init), last, price);
      FilterSnoc(init, last, PricedAt(price));
    }
  }

  /** Two lists ordered by the same key, with the same products of each price in the same
      order, are the same list. */
  lemma {:induction false} SortedStableUnique(dir: Direction, u: seq<Product>, v: seq<Product>)
    requires SortedBy(dir, u) && SortedBy(dir, v)
    requires forall price :: Filter(u, PricedAt(price)) == Filter(v, PricedAt(price))
    ensures u == v
    decreases |u|
  {
    if u == [] && v != [] {
      LastIsFiltered(v);
      assert false;
    } else if u != [] && v == [] {
      LastIsFiltered(u);
      assert false;
    } else if u != [] {
      var price := u[|u| - 1].price;
      assert Filter(u, PricedAt(price)) == Filter(v, PricedAt(price));
      assert Filter(u, PricedAt(v[|v| - 1].price)) == Filter(v, PricedAt(v[|v| - 1].price));
      LastsAgree(dir, u, v);
      var u', v' := u[..|u| - 1], v[..|v| - 1];
      forall other
        ensures Filter(u', PricedAt(other)) == Filter(v', PricedAt(other))
      {
        FilterDropLast(u, v, PricedAt(other));
      }
      SortedStableUnique(dir, u', v');
    }
  }

  /** A non-empty list's last product is listed among the products of its price. */
  lemma LastIsFiltered(v: seq<Product>)
    requires v != []
    ensures Filter(v, PricedAt(v[|v| - 1].price)) != []
  {
    FilterMembership(v, PricedAt(v[|v| - 1].price), v[|v| - 1]);
  }

  /** Two ordered lists with the same products at the prices of their last elements end in
      the same product. */
  lemma LastsAgree(dir: Direction, u: seq<Product>, v: seq<Product>)
    requires SortedBy(dir, u) && SortedBy(dir, v) && u != [] && v != []
    requires Filter(u, PricedAt(u[|u| - 1].price)) == Filter(v, PricedAt(u[|u| - 1].price))
    requires Filter(u, PricedAt(v[|v| - 1].price)) == Filter(v, PricedAt(v[|v| - 1].price))
    ensures u[|u| - 1] == v[|v| - 1]
  {
    var mu, mv := u[|u| - 1], v[|v| - 1];
    LastIsLargestIn(dir, u, v);
    LastIsLargestIn(dir, v, u);
    FilterSameLast(u, v, PricedAt(mu.price));
  }

  /** The last product of `u` is in `v` when both agree at its price, so its key is at most
      the key of `v`'s last product. */
  lemma LastIsLargestIn(dir: Direction, u: seq<Product>, v: seq<Product>)
    requires SortedBy(dir, v) && u != [] && v != []
    requires Filter(u, PricedAt(u[|u| - 1].price)) == Filter(v, PricedAt(u[|u| - 1].price))
    ensures Key(dir, u[|u| - 1]) <= Key(dir, v[|v| - 1])
  {
    var m := u[|u| - 1];
    FilterMembership(u, PricedAt(m.price), m);
    FilterMembership(v, PricedAt(m.price), m);
    SortedLastIsLargest(dir, v, m);
  }

  /** The last element of an ordered list has the largest key. */
  lemma SortedLastIsLargest(dir: Direction, v: seq<Product>, x: Product)
    requires SortedBy(dir, v) && x in v
    ensures Key(dir, x) <= Key(dir, v[|v| - 1])
  {
    var k :| 0 <= k < |v| && v[k] == x;
    if k < |v| - 1 {
      assert Key(dir, v[k]) <= Key(dir, v[|v| - 1]);
    }
  }

  /** `SortByPrice` is the only stable sort: any list ordered by the key that keeps the
      products of each price in their input order is exactly `SortByPrice` of the input. */
  lemma StableSortIsSortByPrice(dir: Direction, s: seq<Product>, t: seq<Product>)
    requires SortedBy(dir, t)
    requires forall price :: Filter(t, PricedAt(price)) == Filter(s, PricedAt(price))
    ensures t == SortByPrice(dir, s)
  {
    var r := SortByPrice(dir, s);
    SortByPriceSorted(dir, s);
    forall price
      ensures Filter(t, PricedAt(price)) == Filter(r, PricedAt(price))
    {
      SortByPriceStable(dir, s, price);
    }
    SortedStableUnique(dir, t, r);
  }

  /** Where `Insert` puts `x`: behind the last element whose key is not greater than its own,
      after which every key is greater. */
  lemma {:induction false} InsertAt(dir: Direction, s: seq<Product>, j: int, x: Product)
    requires 0 <= j <= |s|
    requires j == 0 || Key(dir, s[j - 1]) <= Key(dir, x)
    requires forall k :: j <= k < |s| ==> Key(dir, s[k]) > Key(dir, x)
    ensures Insert(dir, s, x) == s[..j] + [x] + s[j..]
  {
    if j < |s| {
      var init, last := s[..|s| - 1], s[|s| - 1];
      assert Key(dir, last) > Key(dir, x);
      InsertAt(dir, init, j, x);
      SnocAround(s, j, x);
    } else {
      assert s[..j] == s && s[j..] == [];
    }
  }

  /** Putting `x` at `j` of `s` without its last element, then appending that element, is
      putting `x` at `j` of `s`. */
  lemma SnocAround<T>(s: seq<T>, j: int, x: T)
    requires 0 <= j < |s|
    ensures var init := s[..|s| - 1];
      init[..j] + [x] + init[j..] + [s[|s| - 1]] == s[..j] + [x] + s[j..]
  {
    var init := s[..|s| - 1];
    assert init[..j] == s[..j];
    assert init[j..] + [s[|s| - 1]] == s[j..];
  }

  /** The array after the shift, read as a sequence: the prefix up to the gap, `x` in the gap,
      the shifted elements, and the untouched rest. */
  lemma Reassembled<T>(b: seq<T>, sorted: seq<T>, j: int, x: T, rest: seq<T>)
    requires 0 <= j <= |sorted| && |b| == |sorted| + 1 + |rest|
    requires forall k :: 0 <= k < j ==> b[k] == sorted[k]
    requires b[j] == x
    requires forall k :: j < k <= |sorted| ==> b[k] == sorted[k - 1]
    requires b[|sorted| + 1..] == rest
    ensures b == sorted[..j] + [x] + sorted[j..] + rest
  {
    var r := sorted[..j] + [x] + sorted[j..] + rest;
    forall k | 0 <= k < |b|
      ensures b[k] == r[k]
    {
      if k > |sorted| {
        assert b[k] == b[|sorted| + 1..][k - |sorted| - 1];
      }
    }
  }

  /** Shift the prefix `a[..i]` right past every element the comparator puts after `a[i]` and
      drop `a[i]` into the gap: the prefix `a[..i + 1]` becomes `Insert` of `a[i]` into `a[..i]`. */
  method InsertInPlace(dir: Direction, a: array<Product>, i: int)
    requires 0 <= i < a.Length
    modifies a
    ensures a[..] == Insert(dir, old(a[..i]), old(a[i])) + old(a[i + 1..])
  {
    ghost var sorted := a[..i];
    ghost var rest := a[i + 1..];
    var x := a[i];
    var j := i;
    while j > 0 && Comparator(dir, a[j - 1], x) > 0.0
      invariant 0 <= j <= i
      invariant forall k :: 0 <= k < j ==> a[k] == sorted[k]
      invariant forall k :: j < k <= i ==> a[k] == sorted[k - 1]
      invariant forall k :: j <= k < i ==> Key(dir, sorted[k]) > Key(dir, x)
      invariant a[i + 1..] == rest
    {
      a[j] := a[j - 1];
      j := j - 1;
    }
    a[j] := x;
    InsertAt(dir, sorted, j, x);
    Reassembled(a[..], sorted, j, x, rest);
  }

  /** Sorting one more element of `s` is inserting it into the sorted prefix. */
  lemma SortByPriceStep(dir: Direction, s: seq<Product>, i: int)
    requires 0 <= i < |s|
    ensures SortByPrice(dir, s[..i + 1]) == Insert(dir, SortByPrice(dir, s[..i]), s[i])
  {
    assert s[..i + 1][..i] == s[..i];
  }

  /** Reading a concatenation back at the seam. */
  lemma SplitAt<T>(b: seq<T>, s: seq<T>, t: seq<T>)
    requires b == s + t && t != []
    ensures b[..|s|] == s && b[|s|] == t[0] && b[|s| + 1..] == t[1..]
  {
  }

  /** One step of the outer loop: inserting the next input element into the sorted prefix
      extends the sorted prefix by one. */
  lemma SortedOneMore(dir: Direction, input: seq<Product>, i: int, before: seq<Product>, after: seq<Product>)
    requires 0 <= i < |input|
    requires before == SortByPrice(dir, input[..i]) + input[i..]
    requires after == Insert(dir, before[..i], before[i]) + before[i + 1..]
    ensures after == SortByPrice(dir, input[..i + 1]) + input[i + 1..]
  {
    SortByPriceStep(dir, input, i);
    SplitAt(before, SortByPrice(dir, input[..i]), input[i..]);
    assert input[i..][1..] == input[i + 1..];
  }

  /** The in-place insertion sort on a fresh copy: the array ends up holding the stable sort
      of what it held. */
  method SortInPlace(dir: Direction, a: array<Product>)
    modifies a
    ensures a[..] == SortByPrice(dir, old(a[..]))
  {
    ghost var input := a[..];
    var i := 0;
    while i < a.Length
      invariant 0 <= i <= a.Length
      invariant a[..] == SortByPrice(dir, input[..i]) + input[i..]
    {
      ghost var before := a[..];
      InsertInPlace(dir, a, i);
      SortedOneMore(dir, input, i, before, a[..]);
      i := i + 1;
    }
    assert input[..i] == input;
  }

  // ---------------------------------------------------------------------------
  // The effect: filter, copy, sort
  // ---------------------------------------------------------------------------

  /** What the page lists for the given search term, category and sort order. */
  function Displayed(catalog: seq<Product>, term: string, category: string, order: string): seq<Product>
  {
    var filtered := Filtered(catalog, term, category);
    match DirectionOf(order)
    case None => filtered
    case Some(dir) => SortByPrice(dir, filtered)
  }

  /** What the page promises about its list: a product is listed iff it passes both filters
      (each listed as often as in the catalog); the prices ascend or descend as asked; products
      of equal price, and the whole list under any other order, keep catalog order. */
  lemma DisplayedProperties(catalog: seq<Product>, term: string, category: string, order: string, price: real)
    ensures multiset(Displayed(catalog, term, category, order))
         == multiset(Filter(catalog, PassesFilter(term, category)))
    ensures order == PriceAscending ==>
              forall i, j :: 0 <= i < j < |Displayed(catalog, term, category, order)| ==>
                Displayed(catalog, term, category, order)[i].price <= Displayed(catalog, term, category, order)[j].price
    ensures order == PriceDescending ==>
              forall i, j :: 0 <= i < j < |Displayed(catalog, term, category, order)| ==>
                Displayed(catalog, term, category, order)[i].price >= Displayed(catalog, term, category, order)[j].price
    ensures order != PriceAscending && order != PriceDescending ==>
              Displayed(catalog, term, category, order) == Filter(catalog, PassesFilter(term, category))
    ensures Filter(Displayed(catalog, term, category, order), PricedAt(price))
         == Filter(Filter(catalog, PassesFilter(term, category)), PricedAt(price))
  {
    var filtered := Filtered(catalog, term, category);
    FilteredIsOneFilter(catalog, term, category);
    match DirectionOf(order)
    case None =>
    case Some(dir) =>
      SortByPricePermutes(dir, filtered);
      SortByPriceSorted(dir, filtered);
      SortByPriceStable(dir, filtered, price);
  }

  /** The Home Decor category lists the wind chimes and the basket, in catalog order. */
  lemma CategoryScenario()
    ensures var p := InitialProducts;
      Displayed(p, "", "Home Decor", DefaultOrder) == [p[2], p[5]]
  {
    var p := InitialProducts;
    FilterLast(p, CategoryFilter("Home Decor"));
  }

  /** The page's state. */
  class EcoMarketPage {
    const catalog: seq<Product>

    var searchTerm: string
    var filterCategory: string
    var sortOrder: string
    var products: seq<Product>

    /** After the effect: the list is recomputed from the full catalog. */
    ghost predicate Valid()
      reads this
    {
      products == Displayed(catalog, searchTerm, filterCategory, sortOrder)
    }

    /** The page as mounted: no search, all categories, the default order. */
    constructor (catalog: seq<Product>)
      ensures Valid()
      ensures this.catalog == catalog
      ensures searchTerm == "" && filterCategory == AllCategories && sortOrder == DefaultOrder
      ensures products == catalog
    {
      this.catalog := catalog;
      searchTerm := "";
      filterCategory := AllCategories;
      sortOrder := DefaultOrder;
      products := catalog;
      new;
      RunEffect();
    }

    /** The effect: filter from the catalog, copy the result, sort the copy when a price
        order is chosen, and list it. */
    method RunEffect()
      modifies this`products
      ensures Valid()
      ensures products == Displayed(catalog, searchTerm, filterCategory, sortOrder)
    {
      var filtered := Filtered(catalog, searchTerm, filterCategory);
      var sortedProducts := new Product[|filtered|](i requires 0 <= i < |filtered| => filtered[i]);
      assert sortedProducts[..] == filtered;
      if sortOrder == PriceAscending {
        SortInPlace(Ascending, sortedProducts);
      } else if sortOrder == PriceDescending {
        SortInPlace(Descending, sortedProducts);
      }
      products := sortedProducts[..];
    }

    /** Typing in the search box. */
    method SetSearchTerm(term: string)
      modifies this`searchTerm, this`products
      ensures Valid()
      ensures searchTerm == term && filterCategory == old(filterCategory) && sortOrder == old(sortOrder)
      ensures products == Displayed(catalog, term, filterCategory, sortOrder)
    {
      searchTerm := term;
      RunEffect();
    }

    /** Choosing a category. */
    method SetFilterCategory(category: string)
      modifies this`filterCategory, this`products
      ensures Valid()
      ensures filterCategory == category && searchTerm == old(searchTerm) && sortOrder == old(sortOrder)
      ensures products == Displayed(catalog, searchTerm, category, sortOrder)
    {
      filterCategory := category;
      RunEffect();
    }

    /** Choosing a sort order. */
    method SetSortOrder(order: string)
      modifies this`sortOrder, this`products
      ensures Valid()
      ensures sortOrder == order && searchTerm == old(searchTerm) && filterCategory == old(filterCategory)
      ensures products == Displayed(catalog, searchTerm, filterCategory, order)
    {
      sortOrder := order;
      RunEffect();
    }
  }
}
