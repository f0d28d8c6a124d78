/**
 * The checkout form: six shipping fields, a submit that writes an order and then clears the
 * cart, and a render that prefers the confirmation over the empty-cart redirect.
 */
module CheckoutForm {
  import opened Wrappers

  /** The `name` attributes of the six inputs. */
  datatype Field = Name | Email | Phone | Address | City | ZipCode

  datatype FormData = FormData(
    name: string,
    email: string,
    phone: string,
    address: string,
    city: string,
    zipCode: string)

  function Get(form: FormData, field: Field): string {
    match field
    case Name => form.name
    case Email => form.email
    case Phone => form.phone
    case Address => form.address
    case City => form.city
    case ZipCode => form.zipCode
  }

  /** The initial form: every field empty. */
  function EmptyForm(): (form: FormData)
    ensures forall field :: Get(form, field) == ""
  {
    FormData("", "", "", "", "", "")
  }

  /** The field update of `handleInputChange`: the named field takes the value, the other five keep theirs. */
  function Update(form: FormData, field: Field, value: string): (r: FormData)
    ensures Get(r, field) == value
    ensures forall other :: other != field ==> Get(r, other) == Get(form, other)
  {
    match field
    case Name => form.(name := value)
    case Email => form.(email := value)
    case Phone => form.(phone := value)
    case Address => form.(address := value)
    case City => form.(city := value)
    case ZipCode => form.(zipCode := value)
  }

  /** Two forms that agree on every field are the same form. */
  lemma FormsAgree(a: FormData, b: FormData)
    requires forall field :: Get(a, field) == Get(b, field)
    ensures a == b
  {
    assert Get(a, Name) == Get(b, Name) && Get(a, Email) == Get(b, Email);
    assert Get(a, Phone) == Get(b, Phone) && Get(a, Address) == Get(b, Address);
    assert Get(a, City) == Get(b, City) && Get(a, ZipCode) == Get(b, ZipCode);
  }

  /** Typing the same value twice is typing it once, and a field set to its value changes nothing. */
  lemma UpdateIdempotent(form: FormData, field: Field, value: string)
    ensures Update(Update(form, field, value), field, value) == Update(form, field, value)
    ensures Update(form, field, Get(form, field)) == form
  {
    FormsAgree(Update(Update(form, field, value), field, value), Update(form, field, value));
    FormsAgree(Update(form, field, Get(form, field)), form);
  }

  /** Updates of two different fields commute. */
  lemma UpdatesCommute(form: FormData, f: Field, u: string, g: Field, v: string)
    requires f != g
    ensures Update(Update(form, f, u), g, v) == Update(Update(form, g, v), f, u)
  {
    FormsAgree(Update(Update(form, f, u), g, v), Update(Update(form, g, v), f, u));
  }

  /** A cart line as the cart store holds it; the price is copied, never computed on. */
  datatype CartLine = CartLine(id: int, title: string, price: real, image: string, quantity: int)

  /** The cart store's state as this component reads it. */
  datatype CartState = CartState(items: seq<CartLine>, totalItems: int, totalPrice: real)

  /** `serverTimestamp()`: a placeholder the order store replaces with its own time. */
  datatype Timestamp = ServerTimestamp

  datatype Order = Order(
    customer: FormData,
    items: seq<CartLine>,
    totalItems: int,
    totalPrice: real,
    status: string,
    createdAt: Timestamp)

  /**
   * `orderData`: a pending order for the current form whose cart snapshot is the cart state
   * exactly as read: the lines and both totals, copied unchanged.
   */
  function MakeOrder(form: FormData, cart: CartState): (order: Order)
    ensures order.status == "pending" && order.createdAt == ServerTimestamp
    ensures order.customer == form
    ensures CartState(order.items, order.totalItems, order.totalPrice) == cart
  {
    Order(form, cart.items, cart.totalItems, cart.totalPrice, "pending", ServerTimestamp)
  }

  /** What `addDoc` resolves or rejects with. */
  datatype WriteOutcome = Written(id: string) | WriteFailed

  /** The calls the component makes to the world outside its own state, in order. */
  datatype Call = AddDoc(order: Order) | ClearCart | Alert(message: string)

  const OrderError: string := "There was an error processing your order. Please try again."

  /** What the component renders. */
  datatype CheckoutView = Confirmation(orderId: string) | RedirectToCart | Form(submitDisabled: bool)

  /**
   * The render: the confirmation whenever an order id is set, whatever the cart holds; else the
   * redirect to "/cart" (rendering nothing) when the cart is empty; else the form, whose submit
   * button is disabled while a submission is under way.
   */
  function Render(orderId: Option<string>, cart: CartState, loading: bool): (view: CheckoutView)
    ensures Truthy(orderId) ==> view == Confirmation(orderId.value)
    ensures view == RedirectToCart <==> !Truthy(orderId) && cart.items == []
    ensures view.Form? <==> !Truthy(orderId) && cart.items != []
    ensures view.Form? ==> (view.submitDisabled <==> loading)
  {
    if Truthy(orderId) then Confirmation(orderId.value)
    else if |cart.items| == 0 then RedirectToCart
    else Form(loading)
  }

  /** The component's state hooks, the cart state it reads, and the calls it has made. */
  class Checkout {
    var formData: FormData
    var loading: bool
    var orderId: Option<string>
    var cart: CartState
    var calls: seq<Call>

    constructor (cart: CartState)
      ensures formData == EmptyForm() && !loading && orderId == None
      ensures this.cart == cart && calls == []
    {
      formData := EmptyForm();
      loading, orderId := false, None;
      this.cart, calls := cart, [];
    }

    /** `handleInputChange`: only the named field of the form changes. */
    method HandleInputChange(field: Field, value: string)
      modifies this
      ensures formData == Update(old(formData), field, value)
      ensures loading == old(loading) && orderId == old(orderId)
      ensures cart == old(cart) && calls == old(calls)
    {
      formData := Update(formData, field, value);
    }

    /** The cart store re-renders the component with its new state (after `clearCart`, say). */
    method ObserveCart(newCart: CartState)
      modifies this
      ensures cart == newCart
      ensures formData == old(formData) && loading == old(loading)
      ensures orderId == old(orderId) && calls == old(calls)
    {
      cart := newCart;
    }

    /** `handleSubmit` up to the `await`: `setLoading(true)` and the write of the order. */
    method BeginSubmit() returns (order: Order)
      modifies this
      ensures loading
      ensures order == MakeOrder(formData, cart)
      ensures calls == old(calls) + [AddDoc(order)]
      ensures formData == old(formData) && orderId == old(orderId) && cart == old(cart)
    {
      loading := true;
      order := MakeOrder(formData, cart);
      calls := calls + [AddDoc(order)];
    }

    /**
     * `handleSubmit` after the write settles. On success the id is stored and then the cart is
     * cleared; on failure the user is alerted, the id is left alone and the cart is not cleared.
     * `setLoading(false)` runs either way.
     */
    method FinishSubmit(outcome: WriteOutcome)
      modifies this
      ensures !loading
      ensures outcome.Written? ==> orderId == Some(outcome.id) && calls == old(calls) + [ClearCart]
      ensures outcome.WriteFailed? ==> orderId == old(orderId) && calls == old(calls) + [Alert(OrderError)]
      ensures formData == old(formData) && cart == old(cart)
    {
      match outcome {
        case Written(id) =>
          orderId := Some(id);
          calls := calls + [ClearCart];
        case WriteFailed =>
          calls := calls + [Alert(OrderError)];
      }
      loading := false;
    }

    /**
     * The whole submission. The order is written before anything else happens, `clearCart` is
     * called only after a successful write, and once a non-empty id is stored the confirmation
     * is rendered whatever the cart store holds next.
     */
    method HandleSubmit(outcome: WriteOutcome) returns (order: Order)
      modifies this
      ensures order == MakeOrder(old(formData), old(cart))
      ensures !loading
      ensures outcome.Written? ==>
        && orderId == Some(outcome.id)
        && calls == old(calls) + [AddDoc(order), ClearCart]
      ensures outcome.WriteFailed? ==>
        && orderId == old(orderId)
        && calls == old(calls) + [AddDoc(order), Alert(OrderError)]
      ensures formData == old(formData) && cart == old(cart)
      ensures outcome.Written? && outcome.id != "" ==>
        forall next: CartState :: Render(orderId, next, loading) == Confirmation(outcome.id)
    {
      order := BeginSubmit();
      FinishSubmit(outcome);
    }
  }
}
