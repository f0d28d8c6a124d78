/**
 * The product listing: it fetches every product, or one category's products, and renders a
 * heading, an error alert, and a skeleton, a grid or a "no products" message.
 */
module ItemListContainer {
  import opened Wrappers
  import opened Catalog
  import UriEncoding
  import CategoryName

  const CategoryPath: string := "/category/"

  /**
   * The URL `fetchProducts` requests: the whole catalog exactly when the category is absent or
   * empty; otherwise the category listing, whose last segment is percent-encoded (only unreserved
   * characters and `%`) and percent-decodes to the category.
   */
  function ProductsUrl(categoryId: Option<string>): (url: string)
    ensures url == ProductsEndpoint <==> !Truthy(categoryId)
    ensures Truthy(categoryId) ==>
      && |url| > |ProductsEndpoint + CategoryPath|
      && url[..|ProductsEndpoint + CategoryPath|] == ProductsEndpoint + CategoryPath
      && UriEncoding.PercentDecode(url[|ProductsEndpoint + CategoryPath|..])
         == Some(UriEncoding.Utf8String(categoryId.value))
      && forall i :: |ProductsEndpoint + CategoryPath| <= i < |url| ==>
           UriEncoding.Unreserved(url[i]) || url[i] == '%'
  {
    if Truthy(categoryId) then
      var segment := UriEncoding.EncodeURIComponent(categoryId.value);
      UriEncoding.DecodeEncode(categoryId.value);
      assert (ProductsEndpoint + CategoryPath + segment)[|ProductsEndpoint + CategoryPath|..] == segment;
      ProductsEndpoint + CategoryPath + segment
    else
      ProductsEndpoint
  }

  /**
   * `fetchProducts(categoryId)` against a catalog service that answers `server(url)`. It resolves
   * with the parsed body exactly when the response is ok and parses; every other status, 404
   * included, rejects with that status: a listing has no "not found" outcome.
   */
  function FetchProducts(categoryId: Option<string>, server: string -> HttpOutcome<seq<Product>>)
    : (r: Result<seq<Product>, FetchError>)
    ensures r.Success? <==>
      && server(ProductsUrl(categoryId)).Response?
      && IsOk(server(ProductsUrl(categoryId)).status)
      && server(ProductsUrl(categoryId)).body.Parsed?
    ensures r.Success? ==> r.value == server(ProductsUrl(categoryId)).body.value
    ensures server(ProductsUrl(categoryId)).Response? && !IsOk(server(ProductsUrl(categoryId)).status) ==>
      r == Failure(StatusError(server(ProductsUrl(categoryId)).status))
  {
    match server(ProductsUrl(categoryId))
    case TransportFailure => Failure(TransportError)
    case Response(status, body) =>
      if !IsOk(status) then Failure(StatusError(status))
      else
        match body
        case Parsed(products) => Success(products)
        case Unparsable => Failure(BodyError)
  }

  /** The page heading: the formatted category followed by " Products", or "Our Products". */
  function Heading(categoryId: Option<string>): (h: string)
    ensures !Truthy(categoryId) ==> h == "Our Products"
    ensures Truthy(categoryId) ==>
      && |h| == |categoryId.value| + 9
      && h[..|categoryId.value|] == CategoryName.Format(categoryId.value)
      && h[0] == CategoryName.Upper(categoryId.value[0])
      && h[|categoryId.value|..] == " Products"
  {
    if Truthy(categoryId) then CategoryName.Format(categoryId.value) + " Products" else "Our Products"
  }

  /** What fills the body of the page. */
  datatype ListBody = Skeleton | Grid(products: seq<Product>) | NoProducts

  /**
   * The body: the skeleton while loading, whatever the products; after loading the grid of the
   * products when there are any, and the "No products found" message when there are none.
   */
  function PageBody(loading: bool, products: seq<Product>): (view: ListBody)
    ensures view == Skeleton <==> loading
    ensures view == NoProducts <==> !loading && products == []
    ensures view.Grid? ==> view.products == products && products != []
  {
    if loading then Skeleton else if |products| > 0 then Grid(products) else NoProducts
  }

  /** The error alert is shown whenever an error message is set, independently of the body. */
  predicate ShowsAlert(error: Option<string>) {
    Truthy(error)
  }

  const LoadError: string := "Failed to load products. Please try again later."

  /** The component's three state hooks. */
  class ListState {
    var products: seq<Product>
    var loading: bool
    var error: Option<string>

    constructor ()
      ensures products == [] && loading && error == None
    {
      products, loading, error := [], true, None;
    }

    /** The effect's entry: `setLoading(true)` and `setError(null)`; the old products stay. */
    method BeginEffect()
      modifies this
      ensures loading && error == None && products == old(products)
      ensures PageBody(loading, products) == Skeleton && !ShowsAlert(error)
    {
      loading := true;
      error := None;
    }

    /**
     * The request settles: `setProducts` on success, `setError` with the fixed message on
     * failure (the products keep their previous value), then `setLoading(false)` either way.
     */
    method SettleEffect(result: Result<seq<Product>, FetchError>)
      modifies this
      ensures !loading
      ensures result.Success? ==> products == result.value && error == old(error)
      ensures result.Failure? ==> products == old(products) && error == Some(LoadError)
    {
      match result {
        case Success(fetched) => products := fetched;
        case Failure(_) => error := Some(LoadError);
      }
      loading := false;
    }

    /**
     * The whole effect for one `categoryId`. Afterwards nothing is loading; the alert shows
     * exactly when the fetch failed, and then the previous products are still rendered.
     */
    method RunEffect(categoryId: Option<string>, server: string -> HttpOutcome<seq<Product>>)
      modifies this
      ensures !loading
      ensures ShowsAlert(error) <==> FetchProducts(categoryId, server).Failure?
      ensures FetchProducts(categoryId, server).Success? ==>
        products == FetchProducts(categoryId, server).value && error == None
      ensures FetchProducts(categoryId, server).Failure? ==>
        && products == old(products)
        && error == Some(LoadError)
        && PageBody(loading, products) == (if old(products) == [] then NoProducts else Grid(old(products)))
    {
      BeginEffect();
      SettleEffect(FetchProducts(categoryId, server));
    }
  }
}
