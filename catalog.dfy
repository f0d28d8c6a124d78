/** What the two catalog containers share: the product record and the shape of an HTTP exchange. */
module Catalog {

  datatype Rating = Rating(rate: real, count: int)

  /** A product as the catalog service returns it; prices are copied, never computed on. */
  datatype Product = Product(
    id: int,
    title: string,
    price: real,
    description: string,
    category: string,
    image: string,
    rating: Rating)

  /** What `response.json()` does with the body: parses it to a value, or rejects. */
  datatype Body<+T> = Parsed(value: T) | Unparsable

  /** What `fetch(url)` gives back: a transport failure (the promise rejects) or a response. */
  datatype HttpOutcome<+T> = TransportFailure | Response(status: int, body: Body<T>)

  /** Why a fetch helper rejected; the containers log it and show a fixed message instead. */
  datatype FetchError = TransportError | StatusError(status: int) | BodyError

  const ProductsEndpoint: string := "https://fakestoreapi.com/products"

  /** `response.ok`: the status is in the range 200 to 299 (the Fetch Standard's "ok status"). */
  predicate IsOk(status: int) {
    200 <= status <= 299
  }

  /** Status 404 Not Found (section 15.5.5 of RFC 9110). */
  const NotFound: int := 404
}
