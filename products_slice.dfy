/** The catalog store: the fetched products, the fetch lifecycle status,
    the last fetch error and the search term typed in the header. Each
    reducer assigns fields of the store record in place. The HTTP request
    itself is outside the model; it reaches the store only as one of three
    lifecycle events (pending, fulfilled with a payload, rejected with a
    message). */
module ProductsSlice {
  import opened Seqs

  /** A catalog entry. `price` is in minor currency units and `createdAt`
      in milliseconds since the epoch, so both are exact integers. */
  datatype Product = Product(
    id: string,
    name: string,
    price: int,
    image: string,
    description: string,
    createdAt: int)

  /** The four values of the store's `status` field. */
  datatype Status = Idle | Loading | Succeeded | Failed

  const DefaultFetchError: string := "Failed to fetch products"

  /** The error text recorded on rejection:
      `action.error.message || 'Failed to fetch products'`. A missing
      message and an empty one are both falsy and fall back to the
      default text. */
  function RejectionMessage(message: Option<string>): (r: string)
    ensures r != ""
    ensures message.Some? && message.value != "" ==> r == message.value
    ensures message == None || message == Some("") ==> r == DefaultFetchError
  {
    match message
    case Some(m) => if m != "" then m else DefaultFetchError
    case None => DefaultFetchError
  }

  class ProductsStore {
    var items: seq<Product>
    var status: Status
    var error: Option<string>
    var searchTerm: string

    /** The error field is either unset or a non-empty message: only the
        rejection handler writes it, and it never writes an empty text.
        Whenever the status is `Failed`, a message has been recorded. */
    predicate Valid()
      reads this
    {
      (error.None? || error.value != "") && (status == Failed ==> error.Some?)
    }

    /** The text the listing page shows after `Error:` when the status is
        `Failed`: in every reachable store it is a real, non-empty message. */
    function ShownError(): (r: string)
      reads this
      requires Valid() && status == Failed
      ensures r != ""
      ensures error == Some(r)
    {
      error.value
    }

    /** `initialState`. */
    constructor ()
      ensures Valid()
      ensures items == [] && status == Idle && error == None && searchTerm == ""
    {
      items := [];
      status := Idle;
      error := None;
      searchTerm := "";
    }

    /** `setSearchTerm`: replaces the search term and nothing else. */
    method SetSearchTerm(term: string)
      requires Valid()
      modifies this
      ensures Valid()
      ensures searchTerm == term
      ensures items == old(items) && status == old(status) && error == old(error)
    {
      searchTerm := term;
    }

    /** `fetchProducts.pending`: only the status moves, to `Loading`; an
        error left by an earlier rejection stays in place. */
    method FetchPending()
      requires Valid()
      modifies this
      ensures Valid()
      ensures status == Loading
      ensures items == old(items) && error == old(error) && searchTerm == old(searchTerm)
    {
      status := Loading;
    }

    /** `fetchProducts.fulfilled`: the payload becomes the catalog, in the
        order it arrived; the error field is not reset. */
    method FetchFulfilled(payload: seq<Product>)
      requires Valid()
      modifies this
      ensures Valid()
      ensures status == Succeeded && items == payload
      ensures error == old(error) && searchTerm == old(searchTerm)
    {
      status := Succeeded;
      items := payload;
    }

    /** `fetchProducts.rejected`: the only handler that writes `error`. The
        catalog keeps whatever it held before the request. */
    method FetchRejected(message: Option<string>)
      requires Valid()
      modifies this
      ensures Valid()
      ensures status == Failed && error == Some(RejectionMessage(message))
      ensures items == old(items) && searchTerm == old(searchTerm)
    {
      status := Failed;
      error := Some(RejectionMessage(message));
    }
  }

  /** A fetch that fails with "timeout" after a successful one: the store
      reports `Failed` with that text and still holds the earlier catalog. */
  method FailedRefetchKeepsCatalog(catalog: seq<Product>)
    returns (status: Status, error: Option<string>, items: seq<Product>)
    ensures status == Failed && error == Some("timeout") && items == catalog
  {
    var store := new ProductsStore();
    store.FetchPending();
    store.FetchFulfilled(catalog);
    store.FetchPending();
    store.FetchRejected(Some("timeout"));
    status, error, items := store.status, store.error, store.items;
  }

  /** A rejection followed by a successful retry: the store reports
      `Succeeded` with the new catalog, and the old error text is still set
      because neither `pending` nor `fulfilled` clears it. */
  method RetryKeepsStaleError(catalog: seq<Product>)
    returns (status: Status, error: Option<string>, items: seq<Product>)
    ensures status == Succeeded && items == catalog
    ensures error == Some(DefaultFetchError)
  {
    var store := new ProductsStore();
    store.FetchPending();
    store.FetchRejected(None);
    store.FetchPending();
    store.FetchFulfilled(catalog);
    status, error, items := store.status, store.error, store.items;
  }
}
