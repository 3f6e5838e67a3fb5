/** The cart panel. It chooses which cart action a quantity change
    dispatches (an update when the new quantity is positive, a removal
    otherwise), wires the "-" and "+" buttons to that choice, and shows the
    total price as a fold over the cart lines, recomputed from the store on
    every render. */
module CartSummary {
  import opened Seqs
  import opened ProductsSlice
  import opened CartSlice

  /** The two cart actions the panel dispatches. */
  datatype CartAction = UpdateQuantity(id: string, quantity: int) | RemoveFromCart(id: string)

  /** `handleQuantityChange(id, quantity, name)`: a positive quantity is
      sent on as an update; zero or less removes the line instead (the
      toast shown then is not modelled). */
  function QuantityChange(id: string, quantity: int): (a: CartAction)
    ensures a.id == id
    ensures a.UpdateQuantity? <==> quantity > 0
    ensures a.UpdateQuantity? ==> a.quantity == quantity
  {
    if quantity > 0 then UpdateQuantity(id, quantity) else RemoveFromCart(id)
  }

  /** The "-" button of a line: one unit fewer, or a removal when the line
      holds one unit or less. */
  function MinusClicked(line: CartItem): (a: CartAction)
    ensures a.id == line.product.id
    ensures a.RemoveFromCart? <==> line.quantity <= 1
    ensures a.UpdateQuantity? ==> a.quantity == line.quantity - 1
  {
    QuantityChange(line.product.id, line.quantity - 1)
  }

  /** The "+" button of a line: one unit more. On a line with a positive
      quantity this is never a removal. */
  function PlusClicked(line: CartItem): (a: CartAction)
    ensures a.id == line.product.id
    ensures line.quantity >= 0 ==> a == UpdateQuantity(line.product.id, line.quantity + 1)
  {
    QuantityChange(line.product.id, line.quantity + 1)
  }

  /** The cart list after the store has handled a dispatched action. */
  function Reduce(items: seq<CartItem>, a: CartAction): (r: seq<CartItem>)
    ensures a.RemoveFromCart? ==> !HasId(r, a.id)
    ensures a.UpdateQuantity? ==> |r| == |items|
    ensures |r| <= |items|
  {
    match a
    case UpdateQuantity(id, q) => SetLineQuantity(items, id, q)
    case RemoveFromCart(id) => RemoveLines(items, id)
  }

  /** Whatever quantity is requested, the action the panel dispatches keeps
      every line at quantity 1 or more and keeps one line per id. The
      reducer alone does not guarantee this; the panel's choice does. */
  lemma QuantityChangeKeepsInvariants(items: seq<CartItem>, id: string, quantity: int)
    requires AllPositive(items)
    ensures AllPositive(Reduce(items, QuantityChange(id, quantity)))
    ensures UniqueIds(items) ==> UniqueIds(Reduce(items, QuantityChange(id, quantity)))
  {
    if quantity > 0 {
      SetLineQuantityInvariants(items, id, quantity);
    } else {
      RemoveLinesSpec(items, id);
    }
  }

  /** A requested quantity above zero has exactly the effect of
      `updateQuantity` with that quantity. */
  lemma PositiveQuantityUpdates(items: seq<CartItem>, id: string, quantity: int)
    requires quantity > 0
    ensures Reduce(items, QuantityChange(id, quantity)) == SetLineQuantity(items, id, quantity)
  {
  }

  /** A requested quantity of zero or less has exactly the effect of
      `removeFromCart`: afterwards no line has that id. */
  lemma NonPositiveQuantityRemoves(items: seq<CartItem>, id: string, quantity: int)
    requires quantity <= 0
    ensures Reduce(items, QuantityChange(id, quantity)) == RemoveLines(items, id)
    ensures !HasId(Reduce(items, QuantityChange(id, quantity)), id)
  {
    RemoveLinesSpec(items, id);
  }

  /** "-" on a line holding one unit removes that line. */
  lemma MinusOnSingleUnitRemovesLine(items: seq<CartItem>, k: nat)
    requires k < |items| && items[k].quantity == 1
    ensures !HasId(Reduce(items, MinusClicked(items[k])), items[k].product.id)
  {
    NonPositiveQuantityRemoves(items, items[k].product.id, 0);
  }

  /** "-" on a line holding more than one unit lowers it by one and leaves
      the other lines alone; "+" on a line with a positive quantity has the
      same effect as adding that line's product to the cart again. */
  lemma ButtonsStepByOne(items: seq<CartItem>, k: nat)
    requires k < |items| && UniqueIds(items) && items[k].quantity >= 1
    ensures items[k].quantity > 1 ==>
      Reduce(items, MinusClicked(items[k])) == items[k := CartItem(items[k].product, items[k].quantity - 1)]
    ensures Reduce(items, PlusClicked(items[k])) == AddLine(items, items[k].product)
  {
    var id := items[k].product.id;
    SetQuantityOfExistingLine(items, id, items[k].quantity + 1, k);
    AddToExistingLine(items, items[k].product, k);
    if items[k].quantity > 1 {
      SetQuantityOfExistingLine(items, id, items[k].quantity - 1, k);
    }
  }

  /** One line's share of the total: `Number(item.price) * item.quantity`. */
  function LineTotal(line: CartItem): (r: int)
    ensures line.quantity == 0 || line.product.price == 0 ==> r == 0
    ensures line.quantity >= 0 && line.product.price >= 0 ==> r >= 0
  {
    line.product.price * line.quantity
  }

  /** `cartItems.reduce((total, item) => total + price * quantity, 0)`,
      folding from the left as `reduce` does. An empty cart totals 0. */
  function TotalPrice(items: seq<CartItem>): (r: int)
    ensures items == [] ==> r == 0
  {
    if items == [] then 0
    else TotalPrice(items[..|items| - 1]) + LineTotal(items[|items| - 1])
  }

  /** The total of two carts laid end to end is the sum of their totals. */
  lemma {:induction false} TotalPriceAppend(a: seq<CartItem>, b: seq<CartItem>)
    ensures TotalPrice(a + b) == TotalPrice(a) + TotalPrice(b)
  {
    if b == [] {
      assert a + b == a;
    } else {
      assert (a + b)[..|a + b| - 1] == a + b[..|b| - 1];
      TotalPriceAppend(a, b[..|b| - 1]);
    }
  }

  /** Replacing one line changes the total by that line's difference. */
  lemma TotalPriceReplace(items: seq<CartItem>, k: nat, line: CartItem)
    requires k < |items|
    ensures TotalPrice(items[k := line]) == TotalPrice(items) - LineTotal(items[k]) + LineTotal(line)
  {
    var pre, post := items[..k], items[k + 1..];
    assert items == pre + [items[k]] + post;
    assert items[k := line] == pre + [line] + post;
    TotalPriceAppend(pre + [items[k]], post);
    TotalPriceAppend(pre + [line], post);
    TotalPriceAppend(pre, [items[k]]);
    TotalPriceAppend(pre, [line]);
  }

  /** One more unit on a line raises the total by that line's unit price. */
  lemma TotalPriceOneMoreUnit(items: seq<CartItem>, k: nat)
    requires k < |items|
    ensures TotalPrice(items[k := CartItem(items[k].product, items[k].quantity + 1)])
      == TotalPrice(items) + items[k].product.price
  {
    TotalPriceReplace(items, k, CartItem(items[k].product, items[k].quantity + 1));
    var price, q := items[k].product.price, items[k].quantity;
    assert price * (q + 1) == price * q + price;
  }

  /** Removing the (single) line with an id lowers the total by that
      line's share. */
  lemma TotalPriceAfterRemove(items: seq<CartItem>, k: nat)
    requires k < |items| && UniqueIds(items)
    ensures TotalPrice(RemoveLines(items, items[k].product.id)) == TotalPrice(items) - LineTotal(items[k])
  {
    var pre, post := items[..k], items[k + 1..];
    RemoveOnlyLine(items, k);
    assert items == pre + [items[k]] + post;
    TotalPriceAppend(pre, post);
    TotalPriceAppend(pre + [items[k]], post);
    TotalPriceAppend(pre, [items[k]]);
  }

  /** Hands a dispatched action to the cart store's matching reducer. */
  method Dispatch(cart: CartStore, a: CartAction)
    modifies cart
    ensures cart.items == Reduce(old(cart.items), a)
    ensures a.RemoveFromCart? || HasId(old(cart.items), a.id) ==> cart.persisted == Saved(cart.items)
    ensures a.UpdateQuantity? && !HasId(old(cart.items), a.id) ==> cart.persisted == old(cart.persisted)
  {
    match a {
      case UpdateQuantity(id, q) => cart.UpdateQuantity(id, q);
      case RemoveFromCart(id) => cart.RemoveFromCart(id);
    }
  }

  /** Two adds of the same product, then the panel asked for quantity 0:
      the cart is empty and storage holds the empty list. */
  method AddTwiceThenRequestZero(p: Product) returns (items: seq<CartItem>, ghost stored: Stored)
    ensures items == [] && stored == Saved([])
  {
    var cart := new CartStore(Missing);
    cart.AddToCart(p);
    cart.AddToCart(p);
    Dispatch(cart, QuantityChange(p.id, 0));
    assert cart.items == Filter([CartItem(p, 2)], OtherId(p.id));
    items, stored := cart.items, cart.persisted;
  }
}
