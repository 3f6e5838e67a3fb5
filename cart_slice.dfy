/** The cart store: a list of cart lines, each a product together with a
    quantity, changed in place by the `addToCart`, `removeFromCart`,
    `updateQuantity` and `loadCart` reducers. Every change to the list is
    followed by a write of the whole list to the browser's local storage
    under the key "cart"; that storage is modelled by the ghost field
    `persisted`. */
module CartSlice {
  import opened Seqs
  import opened ProductsSlice

  /** A cart line: the product's own fields plus `quantity`. The reducer
      does not bound the quantity, so it is any integer here. */
  datatype CartItem = CartItem(product: Product, quantity: int)

  /** What the "cart" key of local storage holds: nothing usable
      (`getItem` returned null or the empty string, both falsy), text that
      `JSON.parse` rejects, or a list of cart lines. */
  datatype Stored = Missing | Malformed | Saved(lines: seq<CartItem>)

  predicate HasId(items: seq<CartItem>, id: string) {
    exists k :: 0 <= k < |items| && items[k].product.id == id
  }

  /** At most one line per product id. */
  predicate UniqueIds(items: seq<CartItem>) {
    forall i, j :: 0 <= i < j < |items| ==> items[i].product.id != items[j].product.id
  }

  /** Every line has quantity at least 1. */
  predicate AllPositive(items: seq<CartItem>) {
    forall k :: 0 <= k < |items| ==> items[k].quantity >= 1
  }

  /** `items.find(item => item.id === id)`, as the index of the line found. */
  function Find(items: seq<CartItem>, id: string): (r: Option<nat>)
    ensures r.Some? ==> r.value < |items| && items[r.value].product.id == id
    ensures r.Some? ==> forall j :: 0 <= j < r.value ==> items[j].product.id != id
    ensures r.None? <==> !HasId(items, id)
  {
    if items == [] then None
    else if items[0].product.id == id then Some(0)
    else match Find(items[1..], id)
      case None =>
        assert forall k :: 1 <= k < |items| ==> items[k] == items[1..][k - 1];
        None
      case Some(k) => Some(k + 1)
  }

  /** The list after `addToCart(p)`: the first line with `p.id` gets one
      more unit; with no such line, a new line with quantity 1 goes at the
      end. */
  function AddLine(items: seq<CartItem>, p: Product): (r: seq<CartItem>)
    ensures HasId(r, p.id)
    ensures |r| == if HasId(items, p.id) then |items| else |items| + 1
  {
    match Find(items, p.id)
    case Some(k) =>
      var r := items[k := items[k].(quantity := items[k].quantity + 1)];
      assert r[k].product.id == p.id;
      r
    case None =>
      var r := items + [CartItem(p, 1)];
      assert r[|items|].product.id == p.id;
      r
  }

  /** The filter predicate of `removeFromCart(id)`. */
  function OtherId(id: string): CartItem -> bool {
    (line: CartItem) => line.product.id != id
  }

  /** The list after `removeFromCart(id)`. */
  function RemoveLines(items: seq<CartItem>, id: string): (r: seq<CartItem>)
    ensures !HasId(r, id)
    ensures |r| <= |items|
  {
    Filter(items, OtherId(id))
  }

  /** The list after `updateQuantity(id, quantity)`: the first line with
      that id takes the quantity as given; with no such line the list is
      unchanged. */
  function SetLineQuantity(items: seq<CartItem>, id: string, quantity: int): (r: seq<CartItem>)
    ensures |r| == |items|
    ensures forall k :: 0 <= k < |items| ==> r[k].product == items[k].product
    ensures forall k :: 0 <= k < |items| && items[k].product.id != id ==> r[k] == items[k]
  {
    match Find(items, id)
    case Some(k) => items[k := items[k].(quantity := quantity)]
    case None => items
  }

  /** Adding a product that already has a line (found first at `k`) adds
      exactly one unit to that line and changes no other line. */
  lemma AddToExistingLine(items: seq<CartItem>, p: Product, k: nat)
    requires k < |items| && items[k].product.id == p.id
    requires forall j :: 0 <= j < k ==> items[j].product.id != p.id
    ensures AddLine(items, p) == items[k := CartItem(items[k].product, items[k].quantity + 1)]
    ensures |AddLine(items, p)| == |items|
    ensures forall j :: 0 <= j < |items| && j != k ==> AddLine(items, p)[j] == items[j]
  {
    assert HasId(items, p.id);
    assert Find(items, p.id) == Some(k);
  }

  /** Adding a product without a line appends one line carrying the
      product's fields with quantity 1, after the unchanged earlier lines. */
  lemma AddNewLine(items: seq<CartItem>, p: Product)
    requires !HasId(items, p.id)
    ensures AddLine(items, p) == items + [CartItem(p, 1)]
  {
  }

  /** `addToCart` keeps one line per product id, always leaves a line for
      the product, and keeps every quantity at least 1. */
  lemma AddLineInvariants(items: seq<CartItem>, p: Product)
    ensures UniqueIds(items) ==> UniqueIds(AddLine(items, p))
    ensures AllPositive(items) ==> AllPositive(AddLine(items, p))
  {
    var r := AddLine(items, p);
    match Find(items, p.id)
    case Some(k) =>
      assert r[k].product.id == p.id;
    case None =>
      assert r[|items|].product.id == p.id;
  }

  /** `n` successive `addToCart(p)` calls. */
  function AddRepeatedly(items: seq<CartItem>, p: Product, n: nat): seq<CartItem> {
    if n == 0 then items else AddLine(AddRepeatedly(items, p, n - 1), p)
  }

  /** Starting from an empty cart, `n` adds of the same product give a
      single line whose quantity is `n`. */
  lemma {:induction false} AddRepeatedlyToEmpty(p: Product, n: nat)
    requires n >= 1
    ensures AddRepeatedly([], p, n) == [CartItem(p, n)]
  {
    if n > 1 {
      AddRepeatedlyToEmpty(p, n - 1);
      var before := [CartItem(p, n - 1)];
      assert Find(before, p.id) == Some(0);
    }
  }

  /** After `removeFromCart(id)` every line with another id is still
      there, in its original order; nothing changes when the id is absent;
      and the one-line-per-id and positive-quantity invariants survive. */
  lemma RemoveLinesSpec(items: seq<CartItem>, id: string)
    ensures forall k :: 0 <= k < |items| && items[k].product.id != id ==> items[k] in RemoveLines(items, id)
    ensures IsSubsequence(RemoveLines(items, id), items)
    ensures !HasId(items, id) ==> RemoveLines(items, id) == items
    ensures UniqueIds(items) ==> UniqueIds(RemoveLines(items, id))
    ensures AllPositive(items) ==> AllPositive(RemoveLines(items, id))
  {
    var r := RemoveLines(items, id);
    FilterIsSubsequence(items, OtherId(id));
    if !HasId(items, id) {
      FilterKeepsAll(items, OtherId(id));
    }
    if UniqueIds(items) {
      RemoveLinesUnique(items, id);
    }
    forall k | 0 <= k < |r|
      ensures exists j :: 0 <= j < |items| && items[j] == r[k]
    {
      assert r[k] in items;
    }
  }

  /** Filtering keeps one line per id. */
  lemma {:induction false} RemoveLinesUnique(items: seq<CartItem>, id: string)
    requires UniqueIds(items)
    ensures UniqueIds(RemoveLines(items, id))
  {
    if items != [] {
      assert UniqueIds(items[1..]);
      RemoveLinesUnique(items[1..], id);
      var rest := RemoveLines(items[1..], id);
      if OtherId(id)(items[0]) {
        var r := [items[0]] + rest;
        assert RemoveLines(items, id) == r;
        forall j | 0 <= j < |rest|
          ensures rest[j].product.id != items[0].product.id
        {
          var m :| 0 <= m < |items[1..]| && items[1..][m] == rest[j];
          assert items[m + 1] == rest[j];
        }
        forall i, j | 0 <= i < j < |r|
          ensures r[i].product.id != r[j].product.id
        {
          if i > 0 {
            assert r[i] == rest[i - 1] && r[j] == rest[j - 1];
          } else {
            assert r[j] == rest[j - 1];
          }
        }
      }
    }
  }

  /** With one line per id, removing an id that is present shortens the
      list by exactly one line. */
  lemma {:induction false} RemoveLinesLength(items: seq<CartItem>, id: string)
    requires UniqueIds(items) && HasId(items, id)
    ensures |RemoveLines(items, id)| == |items| - 1
  {
    if items[0].product.id == id {
      assert !HasId(items[1..], id);
      RemoveLinesSpec(items[1..], id);
    } else {
      assert UniqueIds(items[1..]);
      assert HasId(items[1..], id) by {
        var k :| 0 <= k < |items| && items[k].product.id == id;
        assert items[1..][k - 1] == items[k];
      }
      RemoveLinesLength(items[1..], id);
    }
  }

  /** With one line per id, removing the id of line `k` leaves the lines
      before it followed by the lines after it. */
  lemma RemoveOnlyLine(items: seq<CartItem>, k: nat)
    requires k < |items| && UniqueIds(items)
    ensures RemoveLines(items, items[k].product.id) == items[..k] + items[k + 1..]
  {
    var id := items[k].product.id;
    var pre, post := items[..k], items[k + 1..];
    assert items == pre + [items[k]] + post;
    assert forall j :: 0 <= j < |pre| ==> OtherId(id)(pre[j]) by {
      forall j | 0 <= j < |pre| ensures pre[j].product.id != id {
        assert pre[j] == items[j];
      }
    }
    assert forall j :: 0 <= j < |post| ==> OtherId(id)(post[j]) by {
      forall j | 0 <= j < |post| ensures post[j].product.id != id {
        assert post[j] == items[k + 1 + j];
      }
    }
    FilterKeepsAll(pre, OtherId(id));
    FilterKeepsAll(post, OtherId(id));
    RemoveSplit(pre, items[k], post, id);
  }

  /** Filtering out the middle line of `pre + [line] + post`. */
  lemma RemoveSplit(pre: seq<CartItem>, line: CartItem, post: seq<CartItem>, id: string)
    requires line.product.id == id
    requires Filter(pre, OtherId(id)) == pre && Filter(post, OtherId(id)) == post
    ensures RemoveLines(pre + [line] + post, id) == pre + post
  {
    var f := OtherId(id);
    assert !f(line);
    assert [line][1..] == [];
    assert Filter([line], f) == [];
    FilterAppend(pre, [line], f);
    assert Filter(pre + [line], f) == pre;
    FilterAppend(pre + [line], post, f);
  }

  /** `updateQuantity(id, q)` on a line that exists (found first at `k`)
      stores `q` exactly, without clamping (zero and negative values
      included), and changes nothing else. */
  lemma SetQuantityOfExistingLine(items: seq<CartItem>, id: string, quantity: int, k: nat)
    requires k < |items| && items[k].product.id == id
    requires forall j :: 0 <= j < k ==> items[j].product.id != id
    ensures SetLineQuantity(items, id, quantity) == items[k := CartItem(items[k].product, quantity)]
    ensures |SetLineQuantity(items, id, quantity)| == |items|
    ensures forall j :: 0 <= j < |items| && j != k ==> SetLineQuantity(items, id, quantity)[j] == items[j]
  {
    assert HasId(items, id);
    assert Find(items, id) == Some(k);
  }

  /** `updateQuantity` keeps one line per id, and keeps every quantity at
      least 1 when the requested quantity is at least 1. */
  lemma SetLineQuantityInvariants(items: seq<CartItem>, id: string, quantity: int)
    ensures !HasId(items, id) ==> SetLineQuantity(items, id, quantity) == items
    ensures UniqueIds(items) ==> UniqueIds(SetLineQuantity(items, id, quantity))
    ensures AllPositive(items) && quantity >= 1 ==> AllPositive(SetLineQuantity(items, id, quantity))
  {
  }

  /** The reducer itself does not enforce quantity >= 1: updating a line to
      zero keeps it, with quantity 0. */
  lemma SetQuantityZeroKeepsLine(p: Product)
    ensures SetLineQuantity([CartItem(p, 3)], p.id, 0) == [CartItem(p, 0)]
    ensures !AllPositive(SetLineQuantity([CartItem(p, 3)], p.id, 0))
  {
    assert Find([CartItem(p, 3)], p.id) == Some(0);
    assert SetLineQuantity([CartItem(p, 3)], p.id, 0)[0].quantity == 0;
  }

  class CartStore {
    var items: seq<CartItem>
    ghost var persisted: Stored

    /** `initialState`: an empty cart. Local storage may still hold a cart
        from an earlier session. */
    constructor (ghost stored: Stored)
      ensures items == [] && persisted == stored
    {
      items := [];
      persisted := stored;
    }

    /** `addToCart(product)`, followed by the storage write. */
    method AddToCart(p: Product)
      modifies this
      ensures items == AddLine(old(items), p)
      ensures persisted == Saved(items)
    {
      var found := Find(items, p.id);
      match found {
        case Some(k) =>
          items := items[k := items[k].(quantity := items[k].quantity + 1)];
        case None =>
          items := items + [CartItem(p, 1)];
      }
      persisted := Saved(items);
    }

    /** `removeFromCart(id)`: the list is replaced by its filtered copy,
        then written to storage. */
    method RemoveFromCart(id: string)
      modifies this
      ensures items == RemoveLines(old(items), id)
      ensures persisted == Saved(items)
    {
      items := Filter(items, OtherId(id));
      persisted := Saved(items);
    }

    /** `updateQuantity({id, quantity})`: when a line has the id its
        quantity is overwritten and the list is written to storage; when
        none has, neither the list nor the storage changes. */
    method UpdateQuantity(id: string, quantity: int)
      modifies this
      ensures items == SetLineQuantity(old(items), id, quantity)
      ensures HasId(old(items), id) ==> persisted == Saved(items)
      ensures !HasId(old(items), id) ==> items == old(items) && persisted == old(persisted)
    {
      var found := Find(items, id);
      if found.Some? {
        var k := found.value;
        items := items[k := items[k].(quantity := quantity)];
        persisted := Saved(items);
      }
    }

    /** `loadCart`: `read` is what `localStorage.getItem('cart')` returns,
        parsed. A saved list replaces the cart; a missing one leaves it as
        it is; malformed text makes `JSON.parse` throw, which nothing
        catches, so the reducer aborts (`threw`) without a change. Storage
        itself is only read. */
    method LoadCart(read: Stored) returns (threw: bool)
      requires read == persisted
      modifies this
      ensures threw <==> read.Malformed?
      ensures items == (if read.Saved? then read.lines else old(items))
      ensures persisted == old(persisted)
      ensures read.Saved? ==> persisted == Saved(items)
    {
      match read
      case Missing =>
        threw := false;
      case Malformed =>
        threw := true;
      case Saved(lines) =>
        items := lines;
        threw := false;
    }
  }

  /** Two adds of the same product and an update to zero: the reducer keeps
      the line with quantity 0, and storage holds that same list. */
  method AddTwiceThenZero(p: Product) returns (items: seq<CartItem>, ghost stored: Stored)
    ensures items == [CartItem(p, 0)] && stored == Saved(items)
  {
    var cart := new CartStore(Missing);
    cart.AddToCart(p);
    cart.AddToCart(p);
    assert Find(cart.items, p.id) == Some(0);
    cart.UpdateQuantity(p.id, 0);
    items, stored := cart.items, cart.persisted;
  }
}
