/** The product listing page. Everything it shows is derived on each
    render from the catalog store and the page's own state: the products
    whose name matches the search term and the brand and model filters,
    stably sorted by the chosen key, cut into pages of twelve; the brand and
    model choices are the first and second words of the product names. The
    page's own state (current page, filters, sort key, the two list search
    boxes) is replaced through setters, modelled by the class `ListView`. */
module ProductList {
  import opened Seqs
  import opened ProductsSlice

  const ProductsPerPage: int := 12

  // ---------------------------------------------------------------------
  // Case-insensitive substring search
  // ---------------------------------------------------------------------

  /** `toLowerCase` on one character, restricted to ASCII letters. */
  function LowerChar(c: char): char {
    if 'A' <= c <= 'Z' then (c as int - 'A' as int + 'a' as int) as char else c
  }

  /** `toLowerCase` on a string, character by character. */
  function Lower(s: string): string {
    seq(|s|, k requires 0 <= k < |s| => LowerChar(s[k]))
  }

  /** `needle` occurs in `hay` starting at position `i`. */
  ghost predicate OccursAt(hay: string, needle: string, i: int) {
    0 <= i && i + |needle| <= |hay| && hay[i..i + |needle|] == needle
  }

  /** `hay.includes(needle)`, by trying each starting position in turn. */
  function Includes(hay: string, needle: string): (r: bool)
    ensures needle == [] ==> r
    ensures r ==> |needle| <= |hay|
    decreases |hay|
  {
    if |needle| > |hay| then false
    else if hay[..|needle|] == needle then true
    else Includes(hay[1..], needle)
  }

  /** `includes` answers exactly whether the needle occurs somewhere. */
  lemma {:induction false} IncludesIff(hay: string, needle: string)
    ensures Includes(hay, needle) <==> exists i :: OccursAt(hay, needle, i)
    decreases |hay|
  {
    if |needle| > |hay| {
    } else if hay[..|needle|] == needle {
      assert OccursAt(hay, needle, 0);
    } else {
      IncludesIff(hay[1..], needle);
      if Includes(hay[1..], needle) {
        var i :| OccursAt(hay[1..], needle, i);
        assert hay[1..][i..i + |needle|] == hay[i + 1..i + 1 + |needle|];
        assert OccursAt(hay, needle, i + 1);
      }
      forall i | OccursAt(hay, needle, i)
        ensures exists j :: OccursAt(hay[1..], needle, j)
      {
        if i > 0 {
          assert hay[1..][i - 1..i - 1 + |needle|] == hay[i..i + |needle|];
          assert OccursAt(hay[1..], needle, i - 1);
        }
      }
    }
  }

  // ---------------------------------------------------------------------
  // Visibility filter
  // ---------------------------------------------------------------------

  /** The brand and model check-boxes ticked so far. */
  datatype Filters = Filters(brands: seq<string>, models: seq<string>)

  /** `tokens.some(t => lowerName.includes(t.toLowerCase()))`. */
  predicate SomeIncluded(lowerName: string, tokens: seq<string>) {
    exists k :: 0 <= k < |tokens| && Includes(lowerName, Lower(tokens[k]))
  }

  /** The predicate of the `filter` call that builds `filteredProducts`. */
  predicate IsVisible(p: Product, searchTerm: string, filters: Filters)
    ensures searchTerm == "" && filters == Filters([], []) ==> IsVisible(p, searchTerm, filters)
  {
    assert Lower("") == "";
    var name := Lower(p.name);
    && Includes(name, Lower(searchTerm))
    && (|filters.brands| == 0 || SomeIncluded(name, filters.brands))
    && (|filters.models| == 0 || SomeIncluded(name, filters.models))
  }

  function VisibleTo(searchTerm: string, filters: Filters): Product -> bool {
    p => IsVisible(p, searchTerm, filters)
  }

  /** The products that pass the filter, before sorting. */
  function VisibleProducts(products: seq<Product>, searchTerm: string, filters: Filters): (r: seq<Product>)
    ensures |r| <= |products|
    ensures forall k :: 0 <= k < |r| ==> r[k] in products && IsVisible(r[k], searchTerm, filters)
  {
    var r := Filter(products, VisibleTo(searchTerm, filters));
    assert forall k :: 0 <= k < |r| ==> VisibleTo(searchTerm, filters)(r[k]);
    r
  }

  /** A product is visible iff its lower-cased name contains the lower-cased
      search term, and some ticked brand (if any is ticked) occurs in it,
      and some ticked model (if any is ticked) occurs in it. */
  lemma IsVisibleIff(p: Product, searchTerm: string, filters: Filters)
    ensures IsVisible(p, searchTerm, filters) <==>
      && (exists i :: OccursAt(Lower(p.name), Lower(searchTerm), i))
      && (filters.brands == [] || exists k, i :: 0 <= k < |filters.brands| && OccursAt(Lower(p.name), Lower(filters.brands[k]), i))
      && (filters.models == [] || exists k, i :: 0 <= k < |filters.models| && OccursAt(Lower(p.name), Lower(filters.models[k]), i))
  {
    var name := Lower(p.name);
    IncludesIff(name, Lower(searchTerm));
    forall k | 0 <= k < |filters.brands| {
      IncludesIff(name, Lower(filters.brands[k]));
    }
    forall k | 0 <= k < |filters.models| {
      IncludesIff(name, Lower(filters.models[k]));
    }
  }

  /** A catalog product is in the filtered list exactly when it is
      visible, and the filtered list keeps catalog order. */
  lemma VisibleProductsSpec(products: seq<Product>, searchTerm: string, filters: Filters)
    ensures forall k :: 0 <= k < |products| ==>
      (products[k] in VisibleProducts(products, searchTerm, filters) <==> IsVisible(products[k], searchTerm, filters))
    ensures IsSubsequence(VisibleProducts(products, searchTerm, filters), products)
  {
    var f := VisibleTo(searchTerm, filters);
    var r := VisibleProducts(products, searchTerm, filters);
    FilterIsSubsequence(products, f);
    forall k | 0 <= k < |products| && products[k] in r
      ensures IsVisible(products[k], searchTerm, filters)
    {
      var j :| 0 <= j < |r| && r[j] == products[k];
      assert f(r[j]);
    }
  }

  /** With an empty search term and nothing ticked, every product is
      visible, in catalog order. */
  lemma NoFilterShowsAll(products: seq<Product>)
    ensures VisibleProducts(products, "", Filters([], [])) == products
  {
    var f := VisibleTo("", Filters([], []));
    forall k | 0 <= k < |products|
      ensures f(products[k])
    {
      assert Lower("") == "";
      assert Lower(products[k].name)[..0] == "";
    }
    FilterKeepsAll(products, f);
  }

  // ---------------------------------------------------------------------
  // Stable sort
  // ---------------------------------------------------------------------

  /** The sort choices: the four radio buttons, and no choice. */
  datatype SortKey = Unsorted | PriceAsc | PriceDesc | OldToNew | NewToOld

  /** The value of `sortBy`: the four radio values, and any other string
      (initially '') meaning no reordering. */
  function ParseSortBy(sortBy: string): (k: SortKey)
    ensures k != Unsorted ==> sortBy in {"priceAsc", "priceDesc", "Old to new", "New to old"}
    ensures sortBy == "" ==> k == Unsorted
  {
    if sortBy == "priceAsc" then PriceAsc
    else if sortBy == "priceDesc" then PriceDesc
    else if sortBy == "Old to new" then OldToNew
    else if sortBy == "New to old" then NewToOld
    else Unsorted
  }

  /** The comparator passed to `sort`: negative when `a` goes first. */
  function Compare(a: Product, b: Product, key: SortKey): (r: int)
    ensures r == Rank(a, key) - Rank(b, key)
  {
    match key
    case PriceAsc => a.price - b.price
    case PriceDesc => b.price - a.price
    case OldToNew => a.createdAt - b.createdAt
    case NewToOld => b.createdAt - a.createdAt
    case Unsorted => 0
  }

  /** The number whose ascending order the comparator describes. */
  function Rank(p: Product, key: SortKey): int {
    match key
    case PriceAsc => p.price
    case PriceDesc => -p.price
    case OldToNew => p.createdAt
    case NewToOld => -p.createdAt
    case Unsorted => 0
  }

  predicate SortedBy(s: seq<Product>, key: SortKey) {
    forall i, j :: 0 <= i < j < |s| ==> Rank(s[i], key) <= Rank(s[j], key)
  }

  /** Places `x` before the first element it does not compare greater
      than, so that `x` stays ahead of the elements it ties with. */
  function Insert(x: Product, t: seq<Product>, key: SortKey): (r: seq<Product>)
    ensures multiset(r) == multiset([x] + t)
  {
    if t == [] || Compare(x, t[0], key) <= 0 then [x] + t
    else
      assert t == [t[0]] + t[1..];
      [t[0]] + Insert(x, t[1..], key)
  }

  /** `Array.prototype.sort` with the comparator above. Since the 2019
      edition of ECMA-262 (section 23.1.3.30 in the 2023 edition) the sort
      is stable, so a stable insertion sort has the same result. */
  function StableSort(s: seq<Product>, key: SortKey): (r: seq<Product>)
    ensures multiset(r) == multiset(s)
  {
    if s == [] then []
    else
      assert s == [s[0]] + s[1..];
      Insert(s[0], StableSort(s[1..], key), key)
  }

  /** Every element of `Insert(x, t)` is `x` or an element of `t`. */
  lemma InsertElements(x: Product, t: seq<Product>, key: SortKey, j: int)
    requires 0 <= j < |Insert(x, t, key)|
    ensures Insert(x, t, key)[j] == x || Insert(x, t, key)[j] in t
  {
    var r := Insert(x, t, key);
    assert r[j] in multiset([x] + t);
    assert r[j] in [x] + t;
  }

  lemma {:induction false} InsertSorted(x: Product, t: seq<Product>, key: SortKey)
    requires SortedBy(t, key)
    ensures SortedBy(Insert(x, t, key), key)
  {
    if t == [] {
    } else if Compare(x, t[0], key) <= 0 {
      var r := [x] + t;
      forall i, j | 0 <= i < j < |r|
        ensures Rank(r[i], key) <= Rank(r[j], key)
      {
        if i > 0 {
          assert r[i] == t[i - 1] && r[j] == t[j - 1];
        } else {
          assert r[j] == t[j - 1];
        }
      }
    } else {
      var rest := Insert(x, t[1..], key);
      InsertSorted(x, t[1..], key);
      forall j | 0 <= j < |rest|
        ensures Rank(t[0], key) <= Rank(rest[j], key)
      {
        InsertElements(x, t[1..], key, j);
        if rest[j] != x {
          var m :| 0 <= m < |t[1..]| && t[1..][m] == rest[j];
          assert t[m + 1] == rest[j];
        }
      }
      var r := [t[0]] + rest;
      forall i, j | 0 <= i < j < |r|
        ensures Rank(r[i], key) <= Rank(r[j], key)
      {
        if i > 0 {
          assert r[i] == rest[i - 1] && r[j] == rest[j - 1];
        } else {
          assert r[j] == rest[j - 1];
        }
      }
    }
  }

  /** The sorted list is in non-decreasing rank order. */
  lemma {:induction false} StableSortSorted(s: seq<Product>, key: SortKey)
    ensures SortedBy(StableSort(s, key), key)
  {
    if s != [] {
      StableSortSorted(s[1..], key);
      InsertSorted(s[0], StableSort(s[1..], key), key);
    }
  }

  function RankIs(key: SortKey, v: int): Product -> bool {
    p => Rank(p, key) == v
  }

  lemma {:induction false} InsertStable(x: Product, t: seq<Product>, key: SortKey, v: int)
    ensures Filter(Insert(x, t, key), RankIs(key, v)) == Filter([x] + t, RankIs(key, v))
  {
    var f := RankIs(key, v);
    if t != [] && Compare(x, t[0], key) > 0 {
      var rest := Insert(x, t[1..], key);
      InsertStable(x, t[1..], key, v);
      assert ([t[0]] + rest)[1..] == rest;
      assert ([x] + t[1..])[1..] == t[1..];
      assert ([x] + t)[1..] == t;
      assert Filter([t[0]] + rest, f) == (if f(t[0]) then [t[0]] else []) + Filter(rest, f);
      assert Filter([x] + t[1..], f) == (if f(x) then [x] else []) + Filter(t[1..], f);
      assert Filter(t, f) == (if f(t[0]) then [t[0]] else []) + Filter(t[1..], f);
      assert !(f(x) && f(t[0]));
    }
  }

  /** Stability: the products of any one rank appear in the sorted list in
      the order they had before sorting. */
  lemma {:induction false} StableSortStable(s: seq<Product>, key: SortKey, v: int)
    ensures Filter(StableSort(s, key), RankIs(key, v)) == Filter(s, RankIs(key, v))
  {
    if s != [] {
      var f := RankIs(key, v);
      StableSortStable(s[1..], key, v);
      InsertStable(s[0], StableSort(s[1..], key), key, v);
      assert ([s[0]] + StableSort(s[1..], key))[1..] == StableSort(s[1..], key);
    }
  }

  /** With no sort key every comparison is a tie, so the order is kept. */
  lemma {:induction false} UnsortedKeepsOrder(s: seq<Product>)
    ensures StableSort(s, Unsorted) == s
  {
    if s != [] {
      UnsortedKeepsOrder(s[1..]);
    }
  }

  /** `filteredProducts`: the visible products, sorted by the chosen key. */
  function FilteredProducts(products: seq<Product>, searchTerm: string, filters: Filters, sortBy: string): (r: seq<Product>)
    ensures multiset(r) == multiset(VisibleProducts(products, searchTerm, filters))
    ensures SortedBy(r, ParseSortBy(sortBy))
  {
    StableSortSorted(VisibleProducts(products, searchTerm, filters), ParseSortBy(sortBy));
    StableSort(VisibleProducts(products, searchTerm, filters), ParseSortBy(sortBy))
  }

  /** The sorted list is a permutation of the visible products; it is in
      non-decreasing price for "priceAsc", non-increasing for "priceDesc",
      oldest first for "Old to new", newest first for "New to old", and in
      catalog order for any other value. */
  lemma FilteredProductsSpec(products: seq<Product>, searchTerm: string, filters: Filters, sortBy: string)
    ensures multiset(FilteredProducts(products, searchTerm, filters, sortBy))
         == multiset(VisibleProducts(products, searchTerm, filters))
    ensures var r := FilteredProducts(products, searchTerm, filters, sortBy);
      && (sortBy == "priceAsc" ==> forall i, j :: 0 <= i < j < |r| ==> r[i].price <= r[j].price)
      && (sortBy == "priceDesc" ==> forall i, j :: 0 <= i < j < |r| ==> r[i].price >= r[j].price)
      && (sortBy == "Old to new" ==> forall i, j :: 0 <= i < j < |r| ==> r[i].createdAt <= r[j].createdAt)
      && (sortBy == "New to old" ==> forall i, j :: 0 <= i < j < |r| ==> r[i].createdAt >= r[j].createdAt)
    ensures ParseSortBy(sortBy) == Unsorted ==>
      FilteredProducts(products, searchTerm, filters, sortBy) == VisibleProducts(products, searchTerm, filters)
  {
    var visible := VisibleProducts(products, searchTerm, filters);
    StableSortSorted(visible, ParseSortBy(sortBy));
    if ParseSortBy(sortBy) == Unsorted {
      UnsortedKeepsOrder(visible);
    }
  }

  // ---------------------------------------------------------------------
  // Pagination
  // ---------------------------------------------------------------------

  function Min(a: int, b: int): int { if a <= b then a else b }
  function Max(a: int, b: int): int { if a >= b then a else b }

  /** `Array.prototype.slice(start, end)` (section 23.1.3.28 of ECMA-262):
      a negative position counts from the end, and both positions are
      clamped to the list, so an out-of-range window is empty. */
  function Slice<T>(s: seq<T>, start: int, end: int): (r: seq<T>)
    ensures |r| <= |s|
    ensures forall k :: 0 <= k < |r| ==> r[k] in s
  {
    var from := if start < 0 then Max(|s| + start, 0) else Min(start, |s|);
    var to := if end < 0 then Max(|s| + end, 0) else Min(end, |s|);
    if from < to then s[from..to] else []
  }

  /** `currentProducts`: the window of page `currentPage`. */
  function CurrentProducts(filtered: seq<Product>, currentPage: int): (r: seq<Product>)
    ensures |r| <= ProductsPerPage
    ensures forall k :: 0 <= k < |r| ==> r[k] in filtered
  {
    var indexOfLastProduct := currentPage * ProductsPerPage;
    var indexOfFirstProduct := indexOfLastProduct - ProductsPerPage;
    Slice(filtered, indexOfFirstProduct, indexOfLastProduct)
  }

  /** Page `p` (from 1) shows the products at positions (p-1)*12 up to
      p*12, cut at the end of the list: at most twelve, and none once
      (p-1)*12 reaches the length. */
  lemma PageWindow(filtered: seq<Product>, page: int)
    requires page >= 1
    ensures CurrentProducts(filtered, page)
         == filtered[Min((page - 1) * ProductsPerPage, |filtered|)..Min(page * ProductsPerPage, |filtered|)]
    ensures |CurrentProducts(filtered, page)| <= ProductsPerPage
    ensures CurrentProducts(filtered, page) == [] <==> (page - 1) * ProductsPerPage >= |filtered|
  {
  }

  /** Every product on any page of the filtered, sorted list comes from
      the catalog and is visible. */
  lemma PageOfFilteredProducts(products: seq<Product>, searchTerm: string, filters: Filters, sortBy: string, page: int)
    ensures var r := CurrentProducts(FilteredProducts(products, searchTerm, filters, sortBy), page);
      forall k :: 0 <= k < |r| ==> r[k] in products && IsVisible(r[k], searchTerm, filters)
    ensures |CurrentProducts(FilteredProducts(products, searchTerm, filters, sortBy), page)| <= ProductsPerPage
  {
    var visible := VisibleProducts(products, searchTerm, filters);
    var sorted := FilteredProducts(products, searchTerm, filters, sortBy);
    var r := CurrentProducts(sorted, page);
    VisibleProductsSpec(products, searchTerm, filters);
    FilteredProductsSpec(products, searchTerm, filters, sortBy);
    forall k | 0 <= k < |r|
      ensures r[k] in products && IsVisible(r[k], searchTerm, filters)
    {
      assert r[k] in sorted;
      assert r[k] in multiset(sorted);
      assert r[k] in multiset(visible);
      var j :| 0 <= j < |visible| && visible[j] == r[k];
    }
  }

  /** `Math.ceil(filteredProducts.length / productsPerPage)`. */
  function PageCount(n: nat): (r: nat)
    ensures (r - 1) * ProductsPerPage < n <= r * ProductsPerPage || (n == 0 && r == 0)
  {
    if n % ProductsPerPage == 0 then n / ProductsPerPage else n / ProductsPerPage + 1
  }

  /** The numbered buttons 1 .. PageCount are exactly the pages that are
      not empty (page 0 is empty too; negative pages are never reached). */
  lemma NonEmptyPagesAreNumbered(filtered: seq<Product>, page: int)
    requires page >= 0
    ensures CurrentProducts(filtered, page) != [] <==> 1 <= page <= PageCount(|filtered|)
  {
    if page >= 1 {
      PageWindow(filtered, page);
    }
  }

  /** The "previous" button is disabled on page 1: the page before it
      would end at position 0, so it is empty whatever the list. */
  predicate PreviousDisabled(currentPage: int)
    ensures PreviousDisabled(currentPage) ==> (currentPage - 1) * ProductsPerPage <= 0
  {
    currentPage == 1
  }

  /** The "next" button is disabled on the last numbered page: the page
      after it would start past the end of the list, while the page itself
      starts before the end of a non-empty list. */
  predicate NextDisabled(currentPage: int, filteredCount: nat)
    ensures NextDisabled(currentPage, filteredCount) ==> filteredCount <= currentPage * ProductsPerPage
    ensures NextDisabled(currentPage, filteredCount) && filteredCount > 0 ==> (currentPage - 1) * ProductsPerPage < filteredCount
  {
    currentPage == PageCount(filteredCount)
  }

  /** While the controls are shown (the current page is not empty), each
      arrow is disabled exactly when the page it leads to would be empty. */
  lemma ArrowsFollowPages(filtered: seq<Product>, page: int)
    requires page >= 1 && CurrentProducts(filtered, page) != []
    ensures PreviousDisabled(page) <==> CurrentProducts(filtered, page - 1) == []
    ensures NextDisabled(page, |filtered|) <==> CurrentProducts(filtered, page + 1) == []
  {
    NonEmptyPagesAreNumbered(filtered, page);
    NonEmptyPagesAreNumbered(filtered, page - 1);
    NonEmptyPagesAreNumbered(filtered, page + 1);
  }

  /** With 25 products: page 1 holds the first twelve, page 3 only the
      last one, and page 4 nothing. */
  lemma TwentyFiveProducts(filtered: seq<Product>)
    requires |filtered| == 25
    ensures CurrentProducts(filtered, 1) == filtered[..12]
    ensures CurrentProducts(filtered, 3) == [filtered[24]]
    ensures CurrentProducts(filtered, 4) == []
    ensures PageCount(|filtered|) == 3
  {
    PageWindow(filtered, 1);
    PageWindow(filtered, 3);
    PageWindow(filtered, 4);
  }

  // ---------------------------------------------------------------------
  // Brand and model tokens
  // ---------------------------------------------------------------------

  /** `s.split(sep)` for a one-character separator: every separator ends a
      part, so there is always one part more than there are separators,
      and parts may be empty. */
  function Split(s: string, sep: char): (parts: seq<string>)
    ensures |parts| >= 1
  {
    if s == [] then [""]
    else
      var rest := Split(s[1..], sep);
      if s[0] == sep then [""] + rest else [[s[0]] + rest[0]] + rest[1..]
  }

  /** `parts.join(sep)`. */
  function Join(parts: seq<string>, sep: char): string
    requires |parts| >= 1
  {
    if |parts| == 1 then parts[0] else parts[0] + [sep] + Join(parts[1..], sep)
  }

  /** Splitting and joining back gives the original text, and no part
      contains the separator. */
  lemma {:induction false} SplitJoin(s: string, sep: char)
    ensures Join(Split(s, sep), sep) == s
    ensures forall k :: 0 <= k < |Split(s, sep)| ==> sep !in Split(s, sep)[k]
  {
    if s != [] {
      var rest := Split(s[1..], sep);
      SplitJoin(s[1..], sep);
      assert s == [s[0]] + s[1..];
      if s[0] != sep {
        var parts := Split(s, sep);
        assert parts[1..] == rest[1..];
        if |rest| > 1 {
          assert Join(rest, sep) == rest[0] + [sep] + Join(rest[1..], sep);
          assert Join(parts, sep) == ([s[0]] + rest[0]) + [sep] + Join(rest[1..], sep);
        }
        forall k | 0 <= k < |parts|
          ensures sep !in parts[k]
        {
          if k > 0 {
            assert parts[k] == rest[k];
          }
        }
      } else {
        assert Split(s, sep)[1..] == rest;
      }
    }
  }

  /** There is more than one part exactly when the separator occurs. */
  lemma {:induction false} SplitHasSecondPart(s: string, sep: char)
    ensures |Split(s, sep)| > 1 <==> sep in s
  {
    if s != [] {
      SplitHasSecondPart(s[1..], sep);
      assert s == [s[0]] + s[1..];
    }
  }

  /** `name.split(' ')[0]`, the brand token: the text before the first
      space, or the whole name when there is none. */
  function BrandOf(name: string): (b: string)
    ensures |b| <= |name| && name[..|b|] == b
    ensures ' ' !in b
    ensures |b| < |name| ==> name[|b|] == ' '
  {
    var parts := Split(name, ' ');
    SplitJoin(name, ' ');
    if |parts| > 1 then
      assert name == parts[0] + [' '] + Join(parts[1..], ' ');
      parts[0]
    else parts[0]
  }

  /** `name.split(' ')[1]`, the model token: `undefined` exactly when the
      name has no space, and otherwise a word without spaces. */
  function ModelOf(name: string): (m: Option<string>)
    ensures m.Some? <==> ' ' in name
    ensures m.Some? ==> ' ' !in m.value
  {
    SplitHasSecondPart(name, ' ');
    SplitJoin(name, ' ');
    var parts := Split(name, ' ');
    if |parts| > 1 then Some(parts[1]) else None
  }

  function Brands(products: seq<Product>): seq<string> {
    seq(|products|, k requires 0 <= k < |products| => BrandOf(products[k].name))
  }

  function Models(products: seq<Product>): seq<Option<string>> {
    seq(|products|, k requires 0 <= k < |products| => ModelOf(products[k].name))
  }

  /** `uniqueBrands`: one check-box per distinct brand. */
  function UniqueBrands(products: seq<Product>): (r: seq<string>)
    ensures NoDup(r)
    ensures |r| <= |products|
  {
    Dedupe(Brands(products))
  }

  /** `uniqueModels`, where `undefined` is a value like any other: one
      check-box per distinct token. */
  function UniqueModels(products: seq<Product>): (r: seq<Option<string>>)
    ensures NoDup(r)
    ensures |r| <= |products|
  {
    Dedupe(Models(products))
  }

  /** `uniqueBrands` lists the brand of every product and nothing else, in
      the order in which the brands first occur in the catalog. */
  lemma UniqueBrandsSpec(products: seq<Product>)
    ensures forall k :: 0 <= k < |products| ==> BrandOf(products[k].name) in UniqueBrands(products)
    ensures forall k :: 0 <= k < |UniqueBrands(products)| ==> UniqueBrands(products)[k] in Brands(products)
    ensures forall i, j :: 0 <= i < j < |UniqueBrands(products)| ==>
      FirstIndex(Brands(products), UniqueBrands(products)[i]) < FirstIndex(Brands(products), UniqueBrands(products)[j])
  {
    var b := Brands(products);
    assert forall k :: 0 <= k < |products| ==> b[k] == BrandOf(products[k].name);
    DedupeFirstOccurrenceOrder(b);
  }

  /** `uniqueModels` lists the model token of every product, in
      first-occurrence order; it holds `undefined` exactly when some
      product name has no space. */
  lemma UniqueModelsSpec(products: seq<Product>)
    ensures forall k :: 0 <= k < |products| ==> ModelOf(products[k].name) in UniqueModels(products)
    ensures forall i, j :: 0 <= i < j < |UniqueModels(products)| ==>
      FirstIndex(Models(products), UniqueModels(products)[i]) < FirstIndex(Models(products), UniqueModels(products)[j])
    ensures None in UniqueModels(products) <==> exists k :: 0 <= k < |products| && ' ' !in products[k].name
  {
    var m := Models(products);
    assert forall k :: 0 <= k < |products| ==> m[k] == ModelOf(products[k].name);
    DedupeFirstOccurrenceOrder(m);
    if None in UniqueModels(products) {
      var j :| 0 <= j < |m| && m[j] == None;
    }
  }

  // ---------------------------------------------------------------------
  // Brand and model list search
  // ---------------------------------------------------------------------

  function MatchesTerm(term: string): string -> bool {
    token => Includes(Lower(token), Lower(term))
  }

  /** The brand list under its search box: the brands whose lower-cased
      text contains the lower-cased box text, in list order. */
  function SearchBrands(brands: seq<string>, term: string): (r: seq<string>)
    ensures |r| <= |brands|
    ensures forall b :: b in r <==> b in brands && MatchesTerm(term)(b)
  {
    Filter(brands, MatchesTerm(term))
  }

  /** Rendering either yields a value or stops with a `TypeError`. */
  datatype Render<T> = Rendered(value: T) | TypeError

  /** The model list under its search box, as written: the filter calls
      `toLowerCase()` on each token in turn, and on `undefined` that throws
      a `TypeError`, which aborts the render of the page. */
  function SearchModels(models: seq<Option<string>>, term: string): (r: Render<seq<string>>)
    ensures r.TypeError? <==> None in models
  {
    if models == [] then Rendered([])
    else match models[0]
      case None => TypeError
      case Some(m) =>
        match SearchModels(models[1..], term)
        case TypeError => TypeError
        case Rendered(rest) => Rendered(if MatchesTerm(term)(m) then [m] + rest else rest)
  }

  /** The tokens of a list of defined model tokens. */
  function Defined(models: seq<Option<string>>): seq<string>
    requires None !in models
  {
    if models == [] then [] else [models[0].value] + Defined(models[1..])
  }

  /** The model search fails exactly when the list holds `undefined`;
      otherwise it is the same filter as the brand search. */
  lemma {:induction false} SearchModelsSpec(models: seq<Option<string>>, term: string)
    ensures None !in models ==> SearchModels(models, term) == Rendered(SearchBrands(Defined(models), term))
  {
    if models != [] {
      SearchModelsSpec(models[1..], term);
      assert models == [models[0]] + models[1..];
      if None !in models {
        assert Defined(models)[1..] == Defined(models[1..]);
      }
    }
  }

  /** A catalog with a one-word product name stops the listing page from
      rendering: whatever is typed in the model search box, the model list
      throws. */
  lemma OneWordNameBreaksModelSearch(products: seq<Product>, k: nat, term: string)
    requires k < |products| && ' ' !in products[k].name
    ensures SearchModels(UniqueModels(products), term) == TypeError
  {
    UniqueModelsSpec(products);
    SearchModelsSpec(UniqueModels(products), term);
  }

  /** The model list as evidently intended: names without a model token
      contribute nothing, and the rest are searched like brands. */
  function SearchDefinedModels(models: seq<Option<string>>, term: string): (r: seq<string>)
    ensures |r| <= |models|
    ensures forall k :: 0 <= k < |r| ==> Some(r[k]) in models
  {
    if models == [] then []
    else
      var rest := SearchDefinedModels(models[1..], term);
      match models[0]
      case None => rest
      case Some(m) => if MatchesTerm(term)(m) then [m] + rest else rest
  }

  /** The corrected model search always renders; it lists exactly the
      defined tokens that match the search box, and agrees with the code as
      written whenever that renders. */
  lemma {:induction false} SearchDefinedModelsSpec(models: seq<Option<string>>, term: string)
    ensures forall m :: m in SearchDefinedModels(models, term) <==> Some(m) in models && MatchesTerm(term)(m)
    ensures SearchModels(models, term).Rendered? ==> SearchModels(models, term).value == SearchDefinedModels(models, term)
  {
    if models != [] {
      SearchDefinedModelsSpec(models[1..], term);
      assert models == [models[0]] + models[1..];
    }
  }

  // ---------------------------------------------------------------------
  // Check-box toggles
  // ---------------------------------------------------------------------

  function NotEqualTo(v: string): string -> bool {
    x => x != v
  }

  /** The list update of `handleBrandChange` / `handleModelChange`: a
      ticked value is removed, an unticked one is appended at the end. */
  function Toggle(list: seq<string>, v: string): (r: seq<string>)
    ensures v in r <==> v !in list
  {
    if v in list then Filter(list, NotEqualTo(v)) else list + [v]
  }

  /** After a toggle the value is ticked iff it was not before; every other
      value keeps its state; an absent value goes at the end; and a list
      without duplicates stays without duplicates. */
  lemma ToggleSpec(list: seq<string>, v: string)
    ensures forall x :: x != v ==> (x in Toggle(list, v) <==> x in list)
    ensures v !in list ==> Toggle(list, v) == list + [v]
    ensures NoDup(list) ==> NoDup(Toggle(list, v))
  {
    if v in list {
      if NoDup(list) {
        FilterNoDup(list, NotEqualTo(v));
      }
      forall x | x != v && x in list
        ensures x in Toggle(list, v)
      {
        var k :| 0 <= k < |list| && list[k] == x;
        assert NotEqualTo(v)(list[k]);
      }
    }
  }

  /** Toggling a value that was not ticked, twice, restores the list. */
  lemma ToggleTwiceFromAbsent(list: seq<string>, v: string)
    requires v !in list
    ensures Toggle(Toggle(list, v), v) == list
  {
    var f := NotEqualTo(v);
    FilterAppend(list, [v], f);
    FilterKeepsAll(list, f);
    assert [v][1..] == [];
  }

  /** Toggling a ticked value twice does not restore the list itself: the
      value comes back at the end. */
  lemma ToggleTwiceMovesToEnd()
    ensures Toggle(Toggle(["a", "b"], "a"), "a") == ["b", "a"]
  {
    var f := NotEqualTo("a");
    assert "a" in ["a", "b"];
    assert ["a", "b"][1..] == ["b"];
    assert ["b"][1..] == [];
    assert Filter(["a", "b"], f) == ["b"];
  }

  predicate SameMembers(a: seq<string>, b: seq<string>) {
    (forall k :: 0 <= k < |a| ==> a[k] in b) && (forall k :: 0 <= k < |b| ==> b[k] in a)
  }

  /** Visibility depends only on which values are ticked, not on their
      order in the filter lists. */
  lemma VisibilityIgnoresTickOrder(p: Product, searchTerm: string, f1: Filters, f2: Filters)
    requires SameMembers(f1.brands, f2.brands) && SameMembers(f1.models, f2.models)
    ensures IsVisible(p, searchTerm, f1) <==> IsVisible(p, searchTerm, f2)
  {
    var name := Lower(p.name);
    if SomeIncluded(name, f1.brands) {
      var k :| 0 <= k < |f1.brands| && Includes(name, Lower(f1.brands[k]));
      var j :| 0 <= j < |f2.brands| && f2.brands[j] == f1.brands[k];
    }
    if SomeIncluded(name, f2.brands) {
      var k :| 0 <= k < |f2.brands| && Includes(name, Lower(f2.brands[k]));
      var j :| 0 <= j < |f1.brands| && f1.brands[j] == f2.brands[k];
    }
    if SomeIncluded(name, f1.models) {
      var k :| 0 <= k < |f1.models| && Includes(name, Lower(f1.models[k]));
      var j :| 0 <= j < |f2.models| && f2.models[j] == f1.models[k];
    }
    if SomeIncluded(name, f2.models) {
      var k :| 0 <= k < |f2.models| && Includes(name, Lower(f2.models[k]));
      var j :| 0 <= j < |f1.models| && f1.models[j] == f2.models[k];
    }
    if |f1.brands| > 0 { assert f1.brands[0] in f2.brands; }
    if |f2.brands| > 0 { assert f2.brands[0] in f1.brands; }
    if |f1.models| > 0 { assert f1.models[0] in f2.models; }
    if |f2.models| > 0 { assert f2.models[0] in f1.models; }
  }

  /** Ticking and unticking the same brand leaves the same products
      visible, whether or not the brand was ticked to begin with. */
  lemma ToggleBrandTwiceSameVisibility(p: Product, searchTerm: string, filters: Filters, v: string)
    ensures IsVisible(p, searchTerm, filters.(brands := Toggle(Toggle(filters.brands, v), v)))
        <==> IsVisible(p, searchTerm, filters)
  {
    var once := Toggle(filters.brands, v);
    var twice := Toggle(once, v);
    ToggleSpec(filters.brands, v);
    ToggleSpec(once, v);
    assert SameMembers(twice, filters.brands);
    VisibilityIgnoresTickOrder(p, searchTerm, filters.(brands := twice), filters);
  }

  /** Ticking and unticking the same model leaves the same products
      visible, whether or not the model was ticked to begin with. */
  lemma ToggleModelTwiceSameVisibility(p: Product, searchTerm: string, filters: Filters, v: string)
    ensures IsVisible(p, searchTerm, filters.(models := Toggle(Toggle(filters.models, v), v)))
        <==> IsVisible(p, searchTerm, filters)
  {
    var once := Toggle(filters.models, v);
    var twice := Toggle(once, v);
    ToggleSpec(filters.models, v);
    ToggleSpec(once, v);
    assert SameMembers(twice, filters.models);
    VisibilityIgnoresTickOrder(p, searchTerm, filters.(models := twice), filters);
  }

  /** The brand of a name whose first space is at position `i` is the text
      before it. */
  lemma BrandBeforeFirstSpace(name: string, i: nat)
    requires i < |name| && name[i] == ' ' && ' ' !in name[..i]
    ensures BrandOf(name) == name[..i]
  {
  }

  /** A name starting with "Apple" passes the filter that ticks Apple. */
  lemma AppleNameVisible(p: Product)
    requires |p.name| >= 5 && p.name[..5] == "Apple"
    ensures IsVisible(p, "", Filters(["Apple"], []))
  {
    var name := Lower(p.name);
    assert Lower("Apple") == "apple";
    assert name[..5] == "apple";
    assert name[..0] == "";
    assert Includes(name, Lower(""));
    assert Includes(name, Lower(["Apple"][0]));
  }

  /** "Samsung Galaxy" does not contain "apple". */
  lemma SamsungNameHidden(p: Product)
    requires p.name == "Samsung Galaxy"
    ensures !IsVisible(p, "", Filters(["Apple"], []))
  {
    assert Lower("Apple") == "apple";
    assert Lower(p.name) == "samsung galaxy";
    assert 'p' !in "samsung galaxy";
    MissingCharNotIncluded("samsung galaxy", "apple", 1);
  }

  /** A text lacking one of the needle's characters does not include it. */
  lemma MissingCharNotIncluded(hay: string, needle: string, k: nat)
    requires k < |needle| && needle[k] !in hay
    ensures !Includes(hay, needle)
  {
    IncludesIff(hay, needle);
  }

  /** Three phones from two makers: the brand list is Apple then Samsung,
      and ticking Apple leaves the two Apple phones. */
  lemma TwoBrandsScenario(a1: Product, a2: Product, s1: Product)
    requires a1.name == "Apple iPhone13" && a2.name == "Apple iPhone14" && s1.name == "Samsung Galaxy"
    ensures UniqueBrands([a1, a2, s1]) == ["Apple", "Samsung"]
    ensures VisibleProducts([a1, a2, s1], "", Filters(["Apple"], [])) == [a1, a2]
  {
    TwoBrandsScenarioBrands(a1, a2, s1);
    AppleNameVisible(a1);
    AppleNameVisible(a2);
    SamsungNameHidden(s1);
    var products := [a1, a2, s1];
    var f := VisibleTo("", Filters(["Apple"], []));
    assert [s1][1..] == [];
    assert Filter([s1], f) == [];
    assert [a2, s1][1..] == [s1];
    assert Filter([a2, s1], f) == [a2];
    assert products[1..] == [a2, s1];
  }

  lemma TwoBrandsScenarioBrands(a1: Product, a2: Product, s1: Product)
    requires a1.name == "Apple iPhone13" && a2.name == "Apple iPhone14" && s1.name == "Samsung Galaxy"
    ensures UniqueBrands([a1, a2, s1]) == ["Apple", "Samsung"]
  {
    assert a1.name[..6] == "Apple " && a2.name[..6] == "Apple ";
    assert s1.name[..8] == "Samsung ";
    FirstWordBrand(a1.name, "Apple");
    FirstWordBrand(a2.name, "Apple");
    FirstWordBrand(s1.name, "Samsung");
    var b := Brands([a1, a2, s1]);
    assert b == ["Apple", "Apple", "Samsung"];
    DedupeTwoValues("Apple", "Samsung");
  }

  /** A name that starts with a space-free word and a space has that word
      as its brand. */
  lemma FirstWordBrand(name: string, word: string)
    requires |word| < |name| && name[..|word| + 1] == word + " " && ' ' !in word
    ensures BrandOf(name) == word
  {
    assert name[|word|] == (word + " ")[|word|];
    assert name[..|word|] == (word + " ")[..|word|];
    BrandBeforeFirstSpace(name, |word|);
  }

  /** `new Set([x, x, y])` iterates as x, y. */
  lemma DedupeTwoValues<T>(x: T, y: T)
    requires x != y
    ensures Dedupe([x, x, y]) == [x, y]
  {
    var s := [x, x, y];
    assert s[..1] == [x];
    assert s[..1][..0] == [];
    assert Dedupe(s[..1]) == [x];
    assert s[..2] == [x, x];
    assert s[..2][..1] == [x];
    assert Dedupe(s[..2]) == [x];
  }

  // ---------------------------------------------------------------------
  // The page's own state
  // ---------------------------------------------------------------------

  class ListView {
    var currentPage: int
    var filters: Filters
    var sortBy: string
    var brandSearchTerm: string
    var modelSearchTerm: string

    /** The ticked lists never hold a value twice. */
    predicate Valid()
      reads this
    {
      NoDup(filters.brands) && NoDup(filters.models)
    }

    /** The initial `useState` values. */
    constructor ()
      ensures Valid()
      ensures currentPage == 1 && filters == Filters([], []) && sortBy == ""
      ensures brandSearchTerm == "" && modelSearchTerm == ""
    {
      currentPage := 1;
      filters := Filters([], []);
      sortBy := "";
      brandSearchTerm := "";
      modelSearchTerm := "";
    }

    /** The products the page shows: the current page of the filtered,
        sorted list. At most twelve, each from the catalog and visible. */
    function Shown(products: seq<Product>, searchTerm: string): (r: seq<Product>)
      reads this
      ensures |r| <= ProductsPerPage
      ensures forall k :: 0 <= k < |r| ==> r[k] in products && IsVisible(r[k], searchTerm, filters)
    {
      PageOfFilteredProducts(products, searchTerm, filters, sortBy, currentPage);
      CurrentProducts(FilteredProducts(products, searchTerm, filters, sortBy), currentPage)
    }

    /** The brand check-boxes offered under the brand search box: the
        catalog's brands that match the box text, each once, in
        first-occurrence order. */
    function BrandChoices(products: seq<Product>): (r: seq<string>)
      reads this
      ensures NoDup(r)
      ensures forall b :: b in r <==> b in UniqueBrands(products) && MatchesTerm(brandSearchTerm)(b)
    {
      FilterNoDup(UniqueBrands(products), MatchesTerm(brandSearchTerm));
      SearchBrands(UniqueBrands(products), brandSearchTerm)
    }

    /** The model check-boxes offered under the model search box, as the
        code computes them: rendering throws as soon as one product name
        has no space; otherwise the list is the defined model tokens that
        match the box text (the corrected `SearchDefinedModels`). */
    function ModelChoices(products: seq<Product>): (r: Render<seq<string>>)
      reads this
      ensures r.TypeError? <==> exists k :: 0 <= k < |products| && ' ' !in products[k].name
      ensures r.Rendered? ==> r.value == SearchDefinedModels(UniqueModels(products), modelSearchTerm)
    {
      UniqueModelsSpec(products);
      SearchDefinedModelsSpec(UniqueModels(products), modelSearchTerm);
      SearchModels(UniqueModels(products), modelSearchTerm)
    }

    /** `paginate(pageNumber)`. */
    method Paginate(pageNumber: int)
      requires Valid()
      modifies this
      ensures Valid()
      ensures currentPage == pageNumber
      ensures filters == old(filters) && sortBy == old(sortBy)
      ensures brandSearchTerm == old(brandSearchTerm) && modelSearchTerm == old(modelSearchTerm)
    {
      currentPage := pageNumber;
    }

    /** `handleBrandChange(brand)`. */
    method HandleBrandChange(brand: string)
      requires Valid()
      modifies this
      ensures Valid()
      ensures filters == old(filters).(brands := Toggle(old(filters).brands, brand))
      ensures currentPage == old(currentPage) && sortBy == old(sortBy)
      ensures brandSearchTerm == old(brandSearchTerm) && modelSearchTerm == old(modelSearchTerm)
    {
      ToggleSpec(filters.brands, brand);
      filters := filters.(brands := Toggle(filters.brands, brand));
    }

    /** `handleModelChange(model)`. */
    method HandleModelChange(model: string)
      requires Valid()
      modifies this
      ensures Valid()
      ensures filters == old(filters).(models := Toggle(old(filters).models, model))
      ensures currentPage == old(currentPage) && sortBy == old(sortBy)
      ensures brandSearchTerm == old(brandSearchTerm) && modelSearchTerm == old(modelSearchTerm)
    {
      ToggleSpec(filters.models, model);
      filters := filters.(models := Toggle(filters.models, model));
    }

    /** A sort radio button's `setSortBy(e.target.value)`. */
    method SetSortBy(value: string)
      requires Valid()
      modifies this
      ensures Valid()
      ensures sortBy == value
      ensures currentPage == old(currentPage) && filters == old(filters)
      ensures brandSearchTerm == old(brandSearchTerm) && modelSearchTerm == old(modelSearchTerm)
    {
      sortBy := value;
    }

    /** The brand list search box's `setBrandSearchTerm(e.target.value)`. */
    method SetBrandSearchTerm(value: string)
      requires Valid()
      modifies this
      ensures Valid()
      ensures brandSearchTerm == value
      ensures currentPage == old(currentPage) && filters == old(filters) && sortBy == old(sortBy)
      ensures modelSearchTerm == old(modelSearchTerm)
    {
      brandSearchTerm := value;
    }

    /** The model list search box's `setModelSearchTerm(e.target.value)`. */
    method SetModelSearchTerm(value: string)
      requires Valid()
      modifies this
      ensures Valid()
      ensures modelSearchTerm == value
      ensures currentPage == old(currentPage) && filters == old(filters) && sortBy == old(sortBy)
      ensures brandSearchTerm == old(brandSearchTerm)
    {
      modelSearchTerm := value;
    }
  }
}
