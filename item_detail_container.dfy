/**
 * The product detail page: it fetches one product and renders a skeleton, an error, a "not
 * found" page or the product, in that order of precedence.
 */
module ItemDetailContainer {
  import opened Wrappers
  import opened Catalog
  import UriEncoding

  /** The URL `fetchProductDetail` requests: the endpoint, "/", then the id exactly as given. */
  function DetailUrl(productId: string): (url: string)
    ensures |url| == |ProductsEndpoint| + 1 + |productId|
    ensures url[..|ProductsEndpoint| + 1] == ProductsEndpoint + "/"
    ensures url[|ProductsEndpoint| + 1..] == productId
  {
    ProductsEndpoint + "/" + productId
  }

  /**
   * The id is not percent-encoded: the URL agrees with an encoded one exactly when every
   * character of the id is unreserved (a numeric id, say).
   */
  lemma DetailUrlEncodingMatters(productId: string)
    ensures DetailUrl(productId) == ProductsEndpoint + "/" + UriEncoding.EncodeURIComponent(productId)
        <==> forall i :: 0 <= i < |productId| ==> UriEncoding.Unreserved(productId[i])
  {
    if forall i :: 0 <= i < |productId| ==> UriEncoding.Unreserved(productId[i]) {
      UriEncoding.EncodeUnreservedIsIdentity(productId);
    } else {
      var j :| 0 <= j < |productId| && !UriEncoding.Unreserved(productId[j]);
      UriEncoding.EncodeReservedGrows(productId, j);
    }
  }

  /**
   * `fetchProductDetail(productId)` against a catalog service that answers `server(url)`; the
   * parsed body is a product or JSON `null`. A 404 resolves with `null` (not found) rather than
   * rejecting; any other status that is not ok rejects, as do a transport failure and a body
   * that does not parse; an ok status resolves with the parsed body.
   */
  function FetchProductDetail(productId: string, server: string -> HttpOutcome<Option<Product>>)
    : (r: Result<Option<Product>, FetchError>)
    ensures server(DetailUrl(productId)).Response? && server(DetailUrl(productId)).status == NotFound ==>
      r == Success(None)
    ensures server(DetailUrl(productId)).Response? && IsOk(server(DetailUrl(productId)).status) ==>
      (r.Success? <==> server(DetailUrl(productId)).body.Parsed?)
    ensures r.Success? && server(DetailUrl(productId)).Response? && IsOk(server(DetailUrl(productId)).status) ==>
      r.value == server(DetailUrl(productId)).body.value
    ensures r.Failure? <==>
      || server(DetailUrl(productId)).TransportFailure?
      || (!IsOk(server(DetailUrl(productId)).status) && server(DetailUrl(productId)).status != NotFound)
      || (IsOk(server(DetailUrl(productId)).status) && server(DetailUrl(productId)).body.Unparsable?)
  {
    match server(DetailUrl(productId))
    case TransportFailure => Failure(TransportError)
    case Response(status, body) =>
      if !IsOk(status) then
        if status == NotFound then Success(None) else Failure(StatusError(status))
      else
        match body
        case Parsed(product) => Success(product)
        case Unparsable => Failure(BodyError)
  }

  /** What the page renders. */
  datatype DetailBody = Skeleton | ErrorAlert(message: string) | ProductNotFound | Detail(product: Product)

  /** The precedence of the early returns: loading, then error, then a missing product, then the detail. */
  function PageBody(loading: bool, error: Option<string>, product: Option<Product>): (view: DetailBody)
    ensures view == Skeleton <==> loading
    ensures view.ErrorAlert? <==> !loading && Truthy(error)
    ensures view.ErrorAlert? ==> view.message == error.value
    ensures view == ProductNotFound <==> !loading && !Truthy(error) && product == None
    ensures view.Detail? ==> product == Some(view.product)
  {
    if loading then Skeleton
    else if Truthy(error) then ErrorAlert(error.value)
    else match product
      case None => ProductNotFound
      case Some(p) => Detail(p)
  }

  const LoadError: string := "Failed to load product details. Please try again later."

  /** The component's state hooks, for the `productId` it was rendered with. */
  class DetailState {
    const productId: string
    var product: Option<Product>
    var loading: bool
    var error: Option<string>

    constructor (productId: string)
      ensures this.productId == productId
      ensures product == None && loading && error == None
    {
      this.productId := productId;
      product, loading, error := None, true, None;
    }

    /** The effect's entry: `setLoading(true)` and `setError(null)`; the old product stays. */
    method BeginEffect()
      modifies this
      ensures loading && error == None && product == old(product)
      ensures PageBody(loading, error, product) == Skeleton
    {
      loading := true;
      error := None;
    }

    /**
     * The request settles: `setProduct` with the product or `null` on success, `setError`
     * with the fixed message on failure (the product is not reset), then `setLoading(false)`.
     */
    method SettleEffect(result: Result<Option<Product>, FetchError>)
      modifies this
      ensures !loading
      ensures result.Success? ==> product == result.value && error == old(error)
      ensures result.Failure? ==> product == old(product) && error == Some(LoadError)
    {
      match result {
        case Success(fetched) => product := fetched;
        case Failure(_) => error := Some(LoadError);
      }
      loading := false;
    }

    /**
     * The whole effect: afterwards the page shows the fixed error when the fetch rejected, the
     * "not found" page when it resolved with `null`, and the product otherwise.
     */
    method RunEffect(server: string -> HttpOutcome<Option<Product>>)
      modifies this
      ensures !loading
      ensures FetchProductDetail(productId, server).Failure? ==>
        product == old(product) && PageBody(loading, error, product) == ErrorAlert(LoadError)
      ensures FetchProductDetail(productId, server) == Success(None) ==>
        PageBody(loading, error, product) == ProductNotFound
      ensures forall p :: FetchProductDetail(productId, server) == Success(Some(p)) ==>
        PageBody(loading, error, product) == Detail(p)
    {
      BeginEffect();
      SettleEffect(FetchProductDetail(productId, server));
    }

    /** `handleAddToCart`: logs the quantity and the product id; no state changes. */
    method HandleAddToCart(quantity: int) returns (logged: (string, int))
      ensures logged == (productId, quantity)
    {
      logged := (productId, quantity);
    }
  }
}
