# ShopHub storefront: the sequential logic of its components

A model of the client-side logic of the ShopHub storefront, a Next.js shop over a public product
catalog. It covers five components:

- the quantity selector (`ItemCount`): a counter bounded by 1 and the stock;
- `formatCategoryName`, which upper-cases the first letter of every space-separated word. Its body
  is written three times, in `ItemList`, `ItemListContainer` and `ItemDetailContainer`, and the
  three bodies are identical. Module `CategoryName` models it once and the containers use it;
- the product listing (`ItemListContainer`): the request URL, with `encodeURIComponent` for the
  category segment, the status check, the effect's state updates, the heading and the choice of body;
- the product detail page (`ItemDetailContainer`): the request URL, the status classification with
  404 as "not found", the effect's state updates and the precedence of its early returns;
- the checkout form (`CheckoutForm`): the field update, the order record, the submit sequence
  (write, then store the id, then clear the cart) and the confirmation-before-redirect render.

The network and the order store are parameters. A catalog request is a function
`server: string -> HttpOutcome<T>` from the requested URL to a transport failure or to a status
and a body that parses or does not. The order write is a `WriteOutcome`: an id, or a failure.
Each asynchronous effect is split into the part that runs at once (`BeginEffect`, `BeginSubmit`)
and the part that runs when the promise settles (`SettleEffect`, `FinishSubmit`). A `Run…` or
`HandleSubmit` method composes the two. The cart store is not part of this model. The checkout
component reads its state as a value. It records its calls to `clearCart`, `addDoc` and `alert`
in the order it makes them, in a `calls` sequence.

JavaScript truthiness is written out: a `categoryId` or an `orderId` that is `""` counts as
absent, as it does in the code.

Two things the code does not do, and the model does not claim:

- `handleSubmit` has no empty-cart check: an order is written whatever the cart holds. The
  component only redirects to "/cart" when it renders with an empty cart and no order id.
- Neither fetch effect guards against a stale response: a slow earlier request that settles after
  a newer one overwrites its result.

## Model

| member | source | states |
|---|---|---|
| `CategoryName.Split` | components/ItemList.tsx:28 | `split(" ")` always gives at least one piece, and no piece contains a space |
| `CategoryName.Format` | components/ItemList.tsx:27-32 | the result has the input's length; the character at i is upper-cased when it is first or follows a space, and is otherwise unchanged |
| `CategoryName.JoinSplit` | components/ItemList.tsx:28-31 | joining the pieces of a split with " " gives back the input |
| `CategoryName.SplitJoin` | components/ItemList.tsx:28-31 | splitting the join of space-free words gives back those words |
| `CategoryName.FormatIsCapitalizedAfter` | components/ItemListContainer.tsx:65-70 | split/map/join equals a character-by-character reference that upper-cases each character after a space |
| `CategoryName.CapitalizedAfterAt` | components/ItemDetailContainer.tsx:71-76 | the reference keeps the length, and changes a character only after a space, and only by upper-casing |
| `CategoryName.UpperKeepsSpaces` | components/ItemList.tsx:30 | ASCII upper-casing never makes or removes a space and is idempotent |
| `CategoryName.FormatWords` | components/ItemList.tsx:28-31 | the output splits into the capitalized input words, so the word count is the same |
| `CategoryName.FormatIdempotent` | components/ItemList.tsx:27-32 | formatting twice equals formatting once |
| `CategoryName.FormatKeepsSpaces` | components/ItemList.tsx:27-32 | "" maps to ""; every space stays in place, including runs of spaces and leading or trailing ones, and no other character becomes a space |
| `UriEncoding.Utf8` | components/ItemListContainer.tsx:33 | the shortest UTF-8 form: one octet below U+0080, two below U+0800, three below U+10000, four above; continuation octets are in 0x80..0xBF |
| `UriEncoding.Utf8Decodes` | components/ItemListContainer.tsx:33 | decoding the UTF-8 octets of a character gives back its code point |
| `UriEncoding.PercentEscape` | components/ItemListContainer.tsx:33 | each octet becomes three characters: "%" and two upper-case hexadecimal digits |
| `UriEncoding.EncodeURIComponent` | components/ItemListContainer.tsx:33 | the output is never shorter than the input and holds only unreserved characters and "%" |
| `UriEncoding.DecodeEncode` | components/ItemListContainer.tsx:33 | percent-decoding the encoded string yields exactly the UTF-8 octets of the input |
| `UriEncoding.EncodeUnreservedIsIdentity` | components/ItemListContainer.tsx:33 | a string of unreserved characters is left unchanged |
| `UriEncoding.EncodeReservedGrows` | components/ItemListContainer.tsx:33 | one reserved character makes the output at least two characters longer |
| `ItemListContainer.ProductsUrl` | components/ItemListContainer.tsx:32-34 | the all-products URL exactly when `categoryId` is absent or ""; otherwise `.../products/category/` followed by a percent-encoded segment (only unreserved characters and "%") that percent-decodes to the category |
| `ItemListContainer.FetchProducts` | components/ItemListContainer.tsx:30-45 | it resolves exactly for an ok status with a parsable body, and then with that body; every status that is not ok, 404 included, rejects with that status |
| `ItemListContainer.Heading` | components/ItemListContainer.tsx:77 | "Our Products" for a falsy category; otherwise the formatted category, whose first letter is upper-cased, then " Products" |
| `ItemListContainer.PageBody` | components/ItemListContainer.tsx:91-155 | the skeleton exactly while loading; then the grid of the products if there are any; "No products found" exactly when loading is done and there are none |
| `ItemListContainer.ListState.constructor` | components/ItemListContainer.tsx:48-50 | no products, loading, no error |
| `ItemListContainer.ListState.BeginEffect` | components/ItemListContainer.tsx:53-54 | loading is set and the error cleared, the old products are kept, and the skeleton shows with no alert |
| `ItemListContainer.ListState.SettleEffect` | components/ItemListContainer.tsx:56-62 | on success the products are replaced; on failure only the error is set, to the fixed message; loading is false either way |
| `ItemListContainer.ListState.RunEffect` | components/ItemListContainer.tsx:52-63 | afterwards nothing is loading; the alert shows exactly when the fetch rejected; on failure the previous products are still rendered beside it |
| `ItemDetailContainer.DetailUrl` | components/ItemDetailContainer.tsx:32 | the endpoint, "/", then the product id verbatim |
| `ItemDetailContainer.DetailUrlEncodingMatters` | components/ItemDetailContainer.tsx:32 | the URL equals the percent-encoded one exactly when every character of the id is unreserved, so the id is not encoded |
| `ItemDetailContainer.FetchProductDetail` | components/ItemDetailContainer.tsx:30-44 | 404 resolves with null (not found); an ok status resolves exactly when the body parses, and then with that body; it rejects exactly on transport failure, on another status that is not ok, or on an unparsable ok body |
| `ItemDetailContainer.PageBody` | components/ItemDetailContainer.tsx:78-122 | the skeleton exactly while loading, then the error, then "not found" when the product is null, then the detail |
| `ItemDetailContainer.DetailState.constructor` | components/ItemDetailContainer.tsx:47-49 | no product, loading, no error |
| `ItemDetailContainer.DetailState.BeginEffect` | components/ItemDetailContainer.tsx:53-54 | loading is set and the error cleared; the old product is kept; the skeleton shows |
| `ItemDetailContainer.DetailState.SettleEffect` | components/ItemDetailContainer.tsx:56-64 | on success the product is replaced, possibly by null; on failure the product is kept and the error is the fixed message; loading is false either way |
| `ItemDetailContainer.DetailState.RunEffect` | components/ItemDetailContainer.tsx:52-65 | afterwards: the fixed error if the fetch rejected, even though the product is not reset; "not found" if it resolved with null; the product otherwise |
| `ItemDetailContainer.DetailState.HandleAddToCart` | components/ItemDetailContainer.tsx:67-69 | it changes no state (no frame) and reports the product id and the quantity it logs |
| `ItemCount.Counter.constructor` | components/ItemCount.tsx:15 | the count starts at `initial` |
| `ItemCount.Counter.HandleIncrement` | components/ItemCount.tsx:17-21 | adds exactly 1 below the stock, otherwise leaves the count; keeps 1..stock |
| `ItemCount.Counter.HandleDecrement` | components/ItemCount.tsx:23-27 | subtracts exactly 1 above 1, otherwise leaves the count; keeps 1..stock |
| `ItemCount.Counter.HandleAddToCart` | components/ItemCount.tsx:29-31 | the quantity passed to `onAdd` is the current count, which does not change |
| `ItemCount.StepInRange` | components/ItemCount.tsx:17-27 | one click moves the count by at most 1 and keeps it in 1..stock |
| `ItemCount.RunInRange` | components/ItemCount.tsx:15-69 | from 1 <= initial <= stock, every sequence of clicks keeps the count in 1..stock, so the remaining amount `stock - count` is never negative |
| `ItemCount.DisabledExactlyWhenNoEffect` | components/ItemCount.tsx:44-56 | each button is disabled exactly when clicking it would not change the count; when enabled it moves the count by exactly 1 |
| `ItemCount.IncrementThenDecrement` | components/ItemCount.tsx:17-27 | below the stock, "+" then "-" restores the count exactly when the count is at least 1 |
| `CheckoutForm.EmptyForm` | components/CheckoutForm.tsx:29-36 | all six fields are empty |
| `CheckoutForm.Update` | components/CheckoutForm.tsx:38-44 | the named field takes the new value; the other five are unchanged |
| `CheckoutForm.UpdateIdempotent` | components/CheckoutForm.tsx:38-44 | the same update twice is the update once; setting a field to its current value changes nothing |
| `CheckoutForm.UpdatesCommute` | components/CheckoutForm.tsx:38-44 | updates of different fields commute |
| `CheckoutForm.MakeOrder` | components/CheckoutForm.tsx:52-59 | status "pending", the server timestamp placeholder, the customer is the form, and the cart snapshot (lines and both totals) is the cart state unchanged |
| `CheckoutForm.Render` | components/CheckoutForm.tsx:72-186 | the confirmation whenever the order id is truthy, whatever the cart holds; the redirect exactly with no order id and an empty cart; otherwise the form, whose submit button is disabled exactly while loading |
| `CheckoutForm.Checkout.constructor` | components/CheckoutForm.tsx:25-36 | empty form, not loading, no order id, nothing called yet |
| `CheckoutForm.Checkout.HandleInputChange` | components/CheckoutForm.tsx:38-44 | the form becomes `Update` of the old form; nothing else changes |
| `CheckoutForm.Checkout.ObserveCart` | components/CheckoutForm.tsx:25 | a re-render with a new cart state changes only the cart read |
| `CheckoutForm.Checkout.BeginSubmit` | components/CheckoutForm.tsx:46-61 | loading is set and the order built from the current form and cart is written first |
| `CheckoutForm.Checkout.FinishSubmit` | components/CheckoutForm.tsx:61-69 | on success the id is stored and then `clearCart` is called; on failure the id is untouched, an alert is raised and the cart is not cleared; loading is false either way |
| `CheckoutForm.Checkout.HandleSubmit` | components/CheckoutForm.tsx:46-70 | the calls are exactly [write, clearCart] on success and [write, alert] on failure; the form and the cart read are kept, so a failed submit can be retried; after a successful write with a non-empty id, the confirmation renders for every later cart state |

## Left out

- The cart store (`contexts/CartContext`: add, update, remove, clear and the totals) is not part of this model. The checkout component reads the store's state as a value and records `clearCart` as a call.
- `fetch`, `response.json()`, Firebase `addDoc`, `collection` and `serverTimestamp` are I/O. They appear only as outcomes: a transport failure or a status and a parsed or unparsable body, and a written id or a failure. Whether a parsed body really has the `Product` shape is not checked, as the code does not check it either.
- Overlapping fetches: when `categoryId` or `productId` changes before a request settles, both effects apply whichever response settles last. The model treats each effect run as `BeginEffect` followed by its own `SettleEffect` and claims no ordering between runs.
- Prices, `price * quantity` and `toFixed(2)` are floating point. Prices and totals are `real` values that are only copied.
- `CategoryName.Upper`: `toUpperCase` is modelled for ASCII letters only. Full Unicode case mapping can change the length of a string ("ß" becomes "SS"), and the length and idempotence properties rely on ASCII.
- `UriEncoding.EncodeURIComponent`: a Dafny `char` is a Unicode scalar value. The case of a lone UTF-16 surrogate, for which `encodeURIComponent` throws, cannot arise here.
- `console.error`, `console.log` text, `router.push("/cart")` and `router.back()` are side effects without state. The redirect is the `RedirectToCart` view. The detail page's add-to-cart only logs, and the model returns what it logs.
- ItemCount: `stock`, `initial` and `count` are JavaScript numbers, modelled as integers. With a non-integer stock the range is not kept (stock 2.5 from 1 reaches 3). Both call sites, components/ItemDetailContainer.tsx:180 and components/ItemDetail.tsx:106, pass `stock={20} initial={1}`.
- `CheckoutForm.Field`: `handleInputChange` writes `[name]: value` for whatever `name` the input carries. All six inputs carry one of the six field names, so the model restricts `name` to those six.
- The JSX layout, the skeleton card count and the presentational components (`NavBar`, `Item`, `ItemDetail`, `CartWidget`, `Cart`, the app pages) are not part of this model.
