# Shopping-App storefront state, in Dafny

This project models the client-side state of a small React/Redux
storefront and proves properties of it. It covers three parts:

- **The cart store** (`CartSlice`). It holds a list of cart lines, each
  a product plus a quantity. The `addToCart`, `removeFromCart`,
  `updateQuantity` and `loadCart` reducers change the list in place.
  The browser's local storage under the key "cart" is a ghost field,
  `persisted`, written after every change.
- **The catalog store** (`ProductsSlice`). It holds the fetched
  products, a four-state fetch status, the last fetch error and the
  search term. The asynchronous fetch reaches the store as three events:
  pending, fulfilled with a payload, and rejected with a message.
- **The views**, which derive everything on each render:
  - The listing page (`ProductList`) filters products by search term,
    brand and model, sorts them stably by one of four keys, and cuts
    them into pages of twelve. It also builds the brand and model lists
    from the first and second words of product names, toggles ticked
    values, and keeps its own page state in `ListView`.
  - The cart panel (`CartSummary`) turns a quantity change into an
    update or a removal, and shows the total price.
  - The header (`Header`) shows the unit count and total price, and
    forwards its search box to the catalog store.

`Seqs` models the JavaScript built-ins the code relies on:
`Array.prototype.filter`, de-duplication through a `Set` (first
occurrence wins), and the order-preserving subsequence relation.

Modelling choices:

- Prices are integers in minor currency units.
- Creation times are integers in epoch milliseconds.
- `toLowerCase` lowers ASCII letters.
- `split(' ')` splits on the single space character.
- `slice` clamps its bounds as section 23.1.3.28 of ECMA-262 describes.
- `sort` is stable, as section 23.1.3.30 of ECMA-262 (2023 edition)
  requires, so it is modelled by a stable insertion sort.

Behaviour kept as the code has it, even where a reader might expect
otherwise:

- The catalog store's `error` is written only by the rejection handler.
  A later pending or fulfilled event does not clear it, so a successful
  retry still carries the old error text (`RetryKeepsStaleError`).
- The `updateQuantity` reducer stores any quantity, zero and negatives
  included (`SetQuantityZeroKeepsLine`, `AddTwiceThenZero`). Only the
  cart panel turns a request of zero or less into a removal
  (`QuantityChangeKeepsInvariants`, `AddTwiceThenRequestZero`).
- `loadCart` does not recover from malformed saved data: `JSON.parse`
  throws. `CartStore.LoadCart` reports this as `threw` and leaves the
  cart unchanged.
- Toggling a brand or model twice restores the list only when the value
  was not ticked before (`ToggleTwiceFromAbsent`). When it was ticked,
  the value comes back at the end of the list (`ToggleTwiceMovesToEnd`).
  The visible products are the same either way
  (`ToggleBrandTwiceSameVisibility`, `ToggleModelTwiceSameVisibility`).

## Model

| member | source | states |
|---|---|---|
| Seqs.Filter | src/store/slices/cartSlice.ts:30 | `filter` returns no more elements than it was given; every element it returns is from the input and passes the predicate; every input element that passes is returned |
| Seqs.FilterIsSubsequence | src/pages/ProductList.tsx:29-34 | what `filter` returns is an order-preserving subsequence of its input |
| Seqs.FilterNoDup | src/pages/ProductList.tsx:56 | filtering a duplicate-free list keeps it duplicate-free |
| Seqs.Dedupe | src/pages/ProductList.tsx:49-50 | `Array.from(new Set(s))` has no duplicates, holds every value of `s` and nothing else, and is no longer than `s` |
| Seqs.DedupeFirstOccurrenceOrder | src/pages/ProductList.tsx:49-50 | the de-duplicated values appear in the order of their first occurrences |
| Seqs.DedupeOfNoDup | src/pages/ProductList.tsx:49-50 | a duplicate-free list comes back unchanged from the `Set` round trip |
| ProductsSlice.RejectionMessage | src/store/slices/productsSlice.ts:51 | the recorded error is never empty; it is the message when that is non-empty, and 'Failed to fetch products' when the message is missing or empty |
| ProductsSlice.ProductsStore.ShownError | src/pages/ProductList.tsx:84-85 | in every reachable store whose status is failed, the text shown after "Error:" is a recorded, non-empty message |
| ProductsSlice.ProductsStore.constructor | src/store/slices/productsSlice.ts:20-25 | initial state: no items, status idle, no error, empty search term |
| ProductsSlice.ProductsStore.SetSearchTerm | src/store/slices/productsSlice.ts:36-38 | the search term becomes the payload; items, status and error are unchanged |
| ProductsSlice.ProductsStore.FetchPending | src/store/slices/productsSlice.ts:42-44 | status becomes loading; items, error and search term are unchanged |
| ProductsSlice.ProductsStore.FetchFulfilled | src/store/slices/productsSlice.ts:45-48 | status becomes succeeded and items become exactly the payload, in payload order; error is not reset |
| ProductsSlice.ProductsStore.FetchRejected | src/store/slices/productsSlice.ts:49-52 | status becomes failed and error the rejection message; items are unchanged; only this handler writes error |
| ProductsSlice.FailedRefetchKeepsCatalog | src/store/slices/productsSlice.ts:42-52 | a fetch failing with "timeout" after a successful one leaves status failed, error "timeout" and the earlier catalog |
| ProductsSlice.RetryKeepsStaleError | src/store/slices/productsSlice.ts:42-52 | after a rejection, a successful retry ends in succeeded with the new catalog and the old error text still set |
| CartSlice.Find | src/store/slices/cartSlice.ts:21 | `find` by id gives the first line with that id, and gives nothing exactly when no line has the id |
| CartSlice.AddLine | src/store/slices/cartSlice.ts:20-26 | after an add the product has a line; the cart grows by one line exactly when the product had none, and otherwise keeps its length |
| CartSlice.AddToExistingLine | src/store/slices/cartSlice.ts:21-23 | adding a product whose id has a line raises that first line's quantity by exactly 1; length and every other line are unchanged |
| CartSlice.AddNewLine | src/store/slices/cartSlice.ts:24-25 | adding a product without a line appends one line at the end, with quantity 1 and the product's fields; earlier lines are unchanged |
| CartSlice.AddLineInvariants | src/store/slices/cartSlice.ts:20-26 | adding keeps one line per id and keeps quantities at 1 or more; afterwards the product has a line |
| CartSlice.AddRepeatedlyToEmpty | src/store/slices/cartSlice.ts:20-26 | n adds of one product to an empty cart give a single line with quantity n |
| CartSlice.RemoveLines | src/store/slices/cartSlice.ts:29-30 | after removal no line has the id, and the cart is no longer than before |
| CartSlice.RemoveLinesSpec | src/store/slices/cartSlice.ts:29-30 | after removal no line has the id; every other line is kept, in order; removing an absent id changes nothing; both cart invariants are preserved |
| CartSlice.RemoveLinesUnique | src/store/slices/cartSlice.ts:29-30 | removal keeps one line per id |
| CartSlice.RemoveLinesLength | src/store/slices/cartSlice.ts:29-30 | with one line per id, removing a present id shortens the cart by exactly one line |
| CartSlice.RemoveOnlyLine | src/store/slices/cartSlice.ts:30 | with one line per id, removing line k's id leaves exactly the lines before it followed by the lines after it |
| CartSlice.RemoveSplit | src/store/slices/cartSlice.ts:30 | removing an id from a cart where only one line carries it leaves the lines around that line, joined in order |
| CartSlice.SetLineQuantity | src/store/slices/cartSlice.ts:33-39 | an update keeps the length and every line's product, and leaves every line with another id unchanged |
| CartSlice.SetQuantityOfExistingLine | src/store/slices/cartSlice.ts:33-36 | the first line with the id gets exactly the requested quantity, with no clamping; length and every other line are unchanged |
| CartSlice.SetLineQuantityInvariants | src/store/slices/cartSlice.ts:33-39 | an update for an absent id changes nothing; updates keep one line per id, and keep quantities positive when the requested quantity is positive |
| CartSlice.SetQuantityZeroKeepsLine | src/store/slices/cartSlice.ts:36 | the reducer alone stores quantity 0 on a line rather than removing it |
| CartSlice.CartStore.constructor | src/store/slices/cartSlice.ts:12-14 | the cart starts empty, whatever local storage holds |
| CartSlice.CartStore.AddToCart | src/store/slices/cartSlice.ts:20-28 | the list becomes the add-line result, and storage then holds the new list |
| CartSlice.CartStore.RemoveFromCart | src/store/slices/cartSlice.ts:29-32 | the list becomes the filtered list, and storage then holds it |
| CartSlice.CartStore.UpdateQuantity | src/store/slices/cartSlice.ts:33-39 | the list becomes the updated list; storage is written only when the id was found, and otherwise neither list nor storage changes |
| CartSlice.CartStore.LoadCart | src/store/slices/cartSlice.ts:40-45 | a saved list replaces the cart; missing data leaves it unchanged; malformed data throws and changes nothing |
| CartSlice.AddTwiceThenZero | src/store/slices/cartSlice.ts:20-39 | two adds and an update to 0 through the reducer leave one line with quantity 0, and storage holds it |
| CartSummary.QuantityChange | src/components/CartSummary.tsx:11-18 | a quantity change dispatches an update exactly when the quantity is positive, and otherwise a removal, always for the same id; an update carries the requested quantity |
| CartSummary.PositiveQuantityUpdates | src/components/CartSummary.tsx:12-13 | for a positive quantity the panel has exactly the effect of the `updateQuantity` reducer |
| CartSummary.MinusClicked | src/components/CartSummary.tsx:34 | "-" acts on the line's id; it removes the line exactly when the line holds one unit or fewer, and otherwise asks for one unit less |
| CartSummary.PlusClicked | src/components/CartSummary.tsx:41 | "+" acts on the line's id and, for a line of 0 or more units, asks for one unit more |
| CartSummary.Reduce | src/store/slices/cartSlice.ts:29-39 | a removal leaves no line with the id; an update keeps the number of lines; no action lengthens the cart |
| CartSummary.QuantityChangeKeepsInvariants | src/components/CartSummary.tsx:11-18 | whatever quantity is requested, the dispatched action keeps all quantities at 1 or more and keeps one line per id |
| CartSummary.NonPositiveQuantityRemoves | src/components/CartSummary.tsx:14-16 | requesting quantity 0 or less has exactly the effect of removal: no line with the id is left |
| CartSummary.MinusOnSingleUnitRemovesLine | src/components/CartSummary.tsx:33-38 | "-" on a line holding one unit removes the line |
| CartSummary.ButtonsStepByOne | src/components/CartSummary.tsx:33-45 | "-" on a line with more than one unit lowers it by one and changes nothing else; "+" has the same effect as adding that product again |
| CartSummary.LineTotal | src/components/CartSummary.tsx:20 | a line with no units or a zero price adds nothing to the total, and a line with non-negative price and quantity never lowers it |
| CartSummary.TotalPrice | src/components/CartSummary.tsx:20 | the left fold of price times quantity; an empty cart totals 0 |
| CartSummary.TotalPriceAppend | src/components/CartSummary.tsx:20 | the total of two carts laid end to end is the sum of their totals |
| CartSummary.TotalPriceReplace | src/components/CartSummary.tsx:20 | replacing one line changes the total by that line's difference in price times quantity |
| CartSummary.TotalPriceOneMoreUnit | src/components/CartSummary.tsx:20 | one more unit on a line raises the total by that line's price |
| CartSummary.TotalPriceAfterRemove | src/components/CartSummary.tsx:20 | removing the only line with an id lowers the total by that line's price times quantity |
| CartSummary.Dispatch | src/components/CartSummary.tsx:11-18 | the cart store applies the dispatched action; storage is written except for an update to an absent id |
| CartSummary.AddTwiceThenRequestZero | src/components/CartSummary.tsx:11-18 | two adds, then the panel asked for quantity 0: the cart is empty and storage holds the empty list |
| Header.TotalItems | src/components/Header.tsx:15 | the left fold of quantities; an empty cart counts 0 |
| Header.TotalItemsAppend | src/components/Header.tsx:15 | the unit count of two carts laid end to end is the sum of their counts |
| Header.TotalItemsAtLeastLines | src/components/Header.tsx:15 | with every quantity at least 1, the unit count is at least the number of lines |
| Header.TotalItemsReplace | src/components/Header.tsx:15 | replacing one line changes the unit count by that line's difference in quantity |
| Header.TotalsAfterAppendLine | src/components/Header.tsx:15-16 | appending a line with quantity q raises the unit count by q and the total price by price times q |
| Header.TotalsAfterAddToExisting | src/components/Header.tsx:15-16 | adding a product that has a line raises the unit count by 1 and the total by that line's price |
| Header.TotalsAfterAddNew | src/components/Header.tsx:15-16 | adding a product without a line raises the unit count by 1 and the total by the product's price |
| Header.TotalItemsAfterAdd | src/components/Header.tsx:15 | every add to cart raises the unit count by exactly 1 |
| Header.HandleSearch | src/components/Header.tsx:18-21 | the store's search term becomes the `localSearchTerm` value passed in; items, status and error are unchanged |
| ProductList.Includes | src/pages/ProductList.tsx:31 | `includes` of the empty string always holds, and a text never includes a longer needle |
| ProductList.IncludesIff | src/pages/ProductList.tsx:31 | `includes` holds exactly when the needle occurs at some position of the text |
| ProductList.MissingCharNotIncluded | src/pages/ProductList.tsx:31 | a text lacking one of the needle's characters does not include it |
| ProductList.IsVisible | src/pages/ProductList.tsx:30-34 | with an empty search term and nothing ticked, every product is visible |
| ProductList.IsVisibleIff | src/pages/ProductList.tsx:30-34 | visible exactly when the lower-cased name contains the lower-cased term, and some ticked brand occurs in it when brands are ticked, and likewise for models |
| ProductList.VisibleProducts | src/pages/ProductList.tsx:29-34 | the filtered list is no longer than the catalog, and every listed product is from the catalog and visible |
| ProductList.VisibleProductsSpec | src/pages/ProductList.tsx:29-34 | a catalog product is in the filtered list exactly when it is visible, and the list keeps catalog order |
| ProductList.NoFilterShowsAll | src/pages/ProductList.tsx:29-34 | with an empty term and nothing ticked, the filtered list is the whole catalog, in order |
| ProductList.ParseSortBy | src/pages/ProductList.tsx:35-40 | only the four radio values select a sort key, and the initial empty value selects none |
| ProductList.Compare | src/pages/ProductList.tsx:35-40 | the comparator is the difference of the two products' ranks: prices, negated prices, creation times or negated creation times, and 0 without a sort key |
| ProductList.Insert | src/pages/ProductList.tsx:35-41 | inserting into a list yields a permutation of the element plus the list |
| ProductList.StableSort | src/pages/ProductList.tsx:35-41 | the sorted list is a permutation of its input |
| ProductList.InsertSorted | src/pages/ProductList.tsx:35-41 | inserting into a list sorted by the comparator's key keeps it sorted |
| ProductList.StableSortSorted | src/pages/ProductList.tsx:35-41 | the sort result is in non-decreasing order of the comparator's key |
| ProductList.InsertStable | src/pages/ProductList.tsx:35-41 | insertion places the element ahead of the elements it ties with, which come after it in the input; that is the step stability needs |
| ProductList.StableSortStable | src/pages/ProductList.tsx:35-41 | products with equal keys keep their relative order through the sort |
| ProductList.UnsortedKeepsOrder | src/pages/ProductList.tsx:40 | with no sort key the order is unchanged |
| ProductList.FilteredProducts | src/pages/ProductList.tsx:29-41 | the filtered list is a permutation of the visible products, sorted by the chosen key |
| ProductList.FilteredProductsSpec | src/pages/ProductList.tsx:29-41 | the filtered list is a permutation of the visible products; price ascending or descending, creation time ascending or descending, per sort value; any other value keeps catalog order |
| ProductList.Slice | src/pages/ProductList.tsx:45 | `slice` returns elements of the list only, and never more than the list holds |
| ProductList.CurrentProducts | src/pages/ProductList.tsx:43-45 | whatever the page number, a page holds at most 12 products, all from the filtered list |
| ProductList.PageWindow | src/pages/ProductList.tsx:43-45 | page p shows positions (p-1)*12 up to p*12, cut at the end of the list: at most 12 products, and none once (p-1)*12 reaches the length |
| ProductList.PageOfFilteredProducts | src/pages/ProductList.tsx:29-45 | every product on any page is from the catalog and visible |
| ProductList.PageCount | src/pages/ProductList.tsx:223 | the page count is the least number of 12-product pages that holds the list |
| ProductList.NonEmptyPagesAreNumbered | src/pages/ProductList.tsx:214-234 | pages 1 to the page count are exactly the non-empty pages |
| ProductList.PreviousDisabled | src/pages/ProductList.tsx:218 | "previous" is disabled only where the page before would end at position 0, so would be empty |
| ProductList.NextDisabled | src/pages/ProductList.tsx:234 | "next" is disabled only where the page after would start past the end of the list, and the page itself starts before the end of a non-empty list |
| ProductList.ArrowsFollowPages | src/pages/ProductList.tsx:216-238 | while the controls show, "previous" is disabled exactly when the page before is empty, and "next" exactly when the page after is empty |
| ProductList.TwentyFiveProducts | src/pages/ProductList.tsx:43-45 | with 25 products, page 1 holds the first 12, page 3 the last one, and page 4 nothing; there are 3 pages |
| ProductList.Split | src/pages/ProductList.tsx:49-50 | `split` always returns at least one part |
| ProductList.SplitJoin | src/pages/ProductList.tsx:49-50 | joining the parts back gives the name, and no part holds a space |
| ProductList.SplitHasSecondPart | src/pages/ProductList.tsx:50 | there is a second part exactly when the name contains a space |
| ProductList.BrandOf | src/pages/ProductList.tsx:49 | the brand is a prefix of the name, holds no space, and is followed by a space unless it is the whole name |
| ProductList.BrandBeforeFirstSpace | src/pages/ProductList.tsx:49 | when the first space is at position i, the brand is the text before it |
| ProductList.FirstWordBrand | src/pages/ProductList.tsx:49 | a name that starts with a space-free word and a space has that word as its brand |
| ProductList.ModelOf | src/pages/ProductList.tsx:50 | a model token exists exactly when the name has a space, and it holds no space |
| ProductList.UniqueBrands | src/pages/ProductList.tsx:49 | the brand list has no duplicates and is no longer than the catalog |
| ProductList.UniqueBrandsSpec | src/pages/ProductList.tsx:49 | the brand list holds every product's brand and nothing else, in first-occurrence order |
| ProductList.UniqueModels | src/pages/ProductList.tsx:50 | the model list has no duplicates and is no longer than the catalog |
| ProductList.UniqueModelsSpec | src/pages/ProductList.tsx:50 | the model list holds every product's model token, in first-occurrence order, and holds `undefined` exactly when some name has no space |
| ProductList.SearchBrands | src/pages/ProductList.tsx:150-151 | the brand search keeps exactly the brands whose lower-cased text contains the lower-cased box text, and never adds any |
| ProductList.SearchModels | src/pages/ProductList.tsx:175-176 | the model search throws a TypeError exactly when the model list holds `undefined` |
| ProductList.SearchModelsSpec | src/pages/ProductList.tsx:175-176 | when the model list holds no `undefined`, the model search is the same filter as the brand search |
| ProductList.OneWordNameBreaksModelSearch | src/pages/ProductList.tsx:175-176 | a product named without a space makes the model list search throw, whatever the search text |
| ProductList.SearchDefinedModels | src/pages/ProductList.tsx:175-176 | the corrected search lists only defined model tokens of the list, and no more than the list holds |
| ProductList.SearchDefinedModelsSpec | src/pages/ProductList.tsx:175-176 | the corrected search lists exactly the defined model tokens that match, and agrees with the code whenever that renders |
| ProductList.Toggle | src/pages/ProductList.tsx:52-68 | a toggle ticks a value exactly when it was not ticked |
| ProductList.ToggleSpec | src/pages/ProductList.tsx:52-68 | a toggle leaves every other value's state, appends an absent value at the end, and keeps the list duplicate-free |
| ProductList.ToggleTwiceFromAbsent | src/pages/ProductList.tsx:52-59 | toggling an unticked value twice restores the list exactly |
| ProductList.ToggleTwiceMovesToEnd | src/pages/ProductList.tsx:52-59 | toggling a ticked value twice moves it to the end, so the list is not restored |
| ProductList.VisibilityIgnoresTickOrder | src/pages/ProductList.tsx:32-33 | visibility depends on which values are ticked, not on their order |
| ProductList.ToggleBrandTwiceSameVisibility | src/pages/ProductList.tsx:52-59 | toggling a brand twice leaves the same products visible |
| ProductList.ToggleModelTwiceSameVisibility | src/pages/ProductList.tsx:61-68 | toggling a model twice leaves the same products visible |
| ProductList.AppleNameVisible | src/pages/ProductList.tsx:30-34 | a name starting with "Apple" passes the filter that ticks Apple |
| ProductList.SamsungNameHidden | src/pages/ProductList.tsx:30-34 | "Samsung Galaxy" does not pass the filter that ticks Apple |
| ProductList.TwoBrandsScenario | src/pages/ProductList.tsx:29-50 | for "Apple iPhone13", "Apple iPhone14" and "Samsung Galaxy" the brand list is Apple then Samsung, and ticking Apple shows the two Apple phones |
| ProductList.TwoBrandsScenarioBrands | src/pages/ProductList.tsx:49 | the brand list of those three names is Apple then Samsung |
| ProductList.ListView.constructor | src/pages/ProductList.tsx:15-19 | the page starts on page 1 with nothing ticked, no sort key and empty list search boxes |
| ProductList.ListView.Shown | src/pages/ProductList.tsx:43-45 | the shown products are at most 12, each from the catalog and visible |
| ProductList.ListView.BrandChoices | src/pages/ProductList.tsx:150-151 | the brand check-boxes are exactly the catalog brands whose text contains the box text, ignoring case, each once |
| ProductList.ListView.ModelChoices | src/pages/ProductList.tsx:175-176 | as the code is written, rendering the model check-boxes throws exactly when some product name has no space; when it renders, the list is the defined model tokens whose text contains the box text, ignoring case |
| ProductList.ListView.Paginate | src/pages/ProductList.tsx:47 | the current page becomes the requested number; nothing else changes |
| ProductList.ListView.HandleBrandChange | src/pages/ProductList.tsx:52-59 | the ticked brands are toggled, the models are unchanged, and the lists stay duplicate-free |
| ProductList.ListView.HandleModelChange | src/pages/ProductList.tsx:61-68 | the ticked models are toggled, the brands are unchanged, and the lists stay duplicate-free |
| ProductList.ListView.SetSortBy | src/pages/ProductList.tsx:94-137 | the sort value becomes the chosen radio value; nothing else changes |
| ProductList.ListView.SetBrandSearchTerm | src/pages/ProductList.tsx:147 | the brand search box text becomes the typed value; nothing else changes |
| ProductList.ListView.SetModelSearchTerm | src/pages/ProductList.tsx:172 | the model search box text becomes the typed value; nothing else changes |

## Left out

- The HTTP request in `fetchProducts` (axios). It reaches the model only as the pending, fulfilled and rejected events, and the payload and message are parameters.
- The order in which asynchronous events arrive. Each event is applied whenever the caller applies it.
- Local storage and `JSON.stringify`/`JSON.parse`. Storage is the ghost field `persisted`, and a saved list reads back as the same lines.
- CartSlice.CartStore.LoadCart: does not model that a JSON round trip turns `createdAt` into a string, because dates are integers throughout the model.
- `Number(...)` and `toFixed(2)`. Prices are exact integers, so no rounding is modelled.
- `new Date(...).getTime()`. Creation times are integers already.
- ProductList.Lower: lowers ASCII letters only, because full Unicode case mapping is a large table outside the storefront's logic.
- React rendering and hooks: the `useEffect` fetch trigger, the loading and error screens, list markup, links, toasts and `navigate('/')` after a header search.
- Header.HandleSearch: states what one call does with the `localSearchTerm` it is given, not which value that is. In the source it is the form's `onChange` (src/components/Header.tsx:28), which fires in the same input event as the input's own `onChange` (src/components/Header.tsx:34). The handler reads `localSearchTerm` from the render before that keystroke, so the store's search term lags the search box by one keystroke. React's event and render order is outside the model.
- The product detail page, the route table and Provider wiring, the styling configuration and the DOM render test. They are markup and wiring with no state logic.
- Adding to the cart from the listing page or the detail page. This is the `addToCart` dispatch, modelled by `CartStore.AddToCart`.

## Findings

| source | as written | input that shows it | evidently intended | confidence | as-written member | corrected member |
|---|---|---|---|---|---|---|
| src/pages/ProductList.tsx:175-176 | the model list calls `toLowerCase()` on every `split(' ')[1]` token, and that token is `undefined` for a product name without a space | a catalog holding a product named "iPhone" (no space), with any text in the model search box | names without a second word contribute no model, and the listing page still renders | medium, not executed | ProductList.OneWordNameBreaksModelSearch | ProductList.SearchDefinedModelsSpec |
