/** The page header. It shows the number of units and the total price of
    the cart, both folds over the cart lines recomputed on every render,
    and forwards the text typed in its search box to the catalog store.
    Its total price is the same fold as the cart panel's, so it is
    `CartSummary.TotalPrice`. */
module Header {
  import opened Seqs
  import opened ProductsSlice
  import opened CartSlice
  import opened CartSummary

  /** `cartItems.reduce((total, item) => total + item.quantity, 0)`,
      folding from the left. An empty cart counts 0 units. */
  function TotalItems(items: seq<CartItem>): (r: int)
    ensures items == [] ==> r == 0
  {
    if items == [] then 0
    else TotalItems(items[..|items| - 1]) + items[|items| - 1].quantity
  }

  /** The unit count of two carts laid end to end is the sum of their
      counts; in particular a line with quantity q appended to a cart adds
      exactly q units. */
  lemma {:induction false} TotalItemsAppend(a: seq<CartItem>, b: seq<CartItem>)
    ensures TotalItems(a + b) == TotalItems(a) + TotalItems(b)
  {
    if b == [] {
      assert a + b == a;
    } else {
      assert (a + b)[..|a + b| - 1] == a + b[..|b| - 1];
      TotalItemsAppend(a, b[..|b| - 1]);
    }
  }

  /** With every quantity at least 1, the badge never shows fewer units
      than there are lines. */
  lemma {:induction false} TotalItemsAtLeastLines(items: seq<CartItem>)
    requires AllPositive(items)
    ensures TotalItems(items) >= |items|
  {
    if items != [] {
      TotalItemsAtLeastLines(items[..|items| - 1]);
    }
  }

  /** Appending a line with quantity q raises the unit count by q and the
      total price by the line's price times q. */
  lemma TotalsAfterAppendLine(items: seq<CartItem>, line: CartItem)
    ensures TotalItems(items + [line]) == TotalItems(items) + line.quantity
    ensures TotalPrice(items + [line]) == TotalPrice(items) + line.product.price * line.quantity
  {
    TotalItemsAppend(items, [line]);
    TotalPriceAppend(items, [line]);
    assert [line][..0] == [];
  }

  /** Replacing one line changes the unit count by that line's difference. */
  lemma TotalItemsReplace(items: seq<CartItem>, k: nat, line: CartItem)
    requires k < |items|
    ensures TotalItems(items[k := line]) == TotalItems(items) - items[k].quantity + line.quantity
  {
    var pre, post := items[..k], items[k + 1..];
    assert items == pre + [items[k]] + post;
    assert items[k := line] == pre + [line] + post;
    TotalItemsAppend(pre + [items[k]], post);
    TotalItemsAppend(pre + [line], post);
    TotalItemsAppend(pre, [items[k]]);
    TotalItemsAppend(pre, [line]);
  }

  /** Adding a product that already has a line (found first at `k`) raises
      the unit count by one and the total price by the unit price stored
      on that line. */
  lemma TotalsAfterAddToExisting(items: seq<CartItem>, p: Product, k: nat)
    requires k < |items| && items[k].product.id == p.id
    requires forall j :: 0 <= j < k ==> items[j].product.id != p.id
    ensures TotalItems(AddLine(items, p)) == TotalItems(items) + 1
    ensures TotalPrice(AddLine(items, p)) == TotalPrice(items) + items[k].product.price
  {
    var line := CartItem(items[k].product, items[k].quantity + 1);
    AddToExistingLine(items, p, k);
    TotalItemsReplace(items, k, line);
    TotalPriceOneMoreUnit(items, k);
  }

  /** Adding a product without a line raises the unit count by one and the
      total price by the product's price. */
  lemma TotalsAfterAddNew(items: seq<CartItem>, p: Product)
    requires !HasId(items, p.id)
    ensures TotalItems(AddLine(items, p)) == TotalItems(items) + 1
    ensures TotalPrice(AddLine(items, p)) == TotalPrice(items) + p.price
  {
    AddNewLine(items, p);
    TotalItemsAppend(items, [CartItem(p, 1)]);
    TotalPriceAppend(items, [CartItem(p, 1)]);
  }

  /** Every `addToCart` raises the unit count by exactly one. */
  lemma TotalItemsAfterAdd(items: seq<CartItem>, p: Product)
    ensures TotalItems(AddLine(items, p)) == TotalItems(items) + 1
  {
    match Find(items, p.id)
    case Some(k) => TotalsAfterAddToExisting(items, p, k);
    case None => TotalsAfterAddNew(items, p);
  }

  /** `handleSearch`: the catalog store's search term becomes the
      `localSearchTerm` value the handler reads; nothing else in the store
      changes. The navigation to the listing page is not modelled. */
  method HandleSearch(store: ProductsStore, localSearchTerm: string)
    requires store.Valid()
    modifies store
    ensures store.Valid()
    ensures store.searchTerm == localSearchTerm
    ensures store.items == old(store.items) && store.status == old(store.status)
    ensures store.error == old(store.error)
  {
    store.SetSearchTerm(localSearchTerm);
  }
}
